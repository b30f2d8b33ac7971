# K-means engine of `mykmeanssp.c`, modelled in Dafny

This project models the C engine of a K-means clustering program. The engine is Lloyd's algorithm:

- It seeds K centroids with the first K of N points.
- It assigns every point to its nearest centroid, with ties broken towards the lowest index.
- It moves every centroid to the coordinate-wise mean of its cluster.
- It repeats until no centroid moved by `eps` or more, or until `iter` rounds have run.

The model also covers the validator that `main` applies to the command-line arguments K and iter.

The C code keeps every vector as a linked list of entries, and every cluster as a linked list of vectors. The model uses other types:

- A vector is a `seq<real>`.
- The point set is a `seq<seq<real>>`.
- The centroids and the clusters are arrays of length K, which the methods fill in place as the C loops do.

N, d, K, iter and eps are parameters instead of the file's globals.

Each C function with a loop becomes a Dafny method with the same loop. The method is proved against a specification function:

- `Nearest` for `arg_min_dist`.
- `Clusters` for `assign_data_points_to_clusters`.
- `Mean` for `get_new_centroids`.
- `AllMovedLess` for `compute_flag_delta`.
- `Iterate` with `LloydStep` for `k_means`.
- `Numeral` and `Atoi` for `is_number` and `check_argument`.

Lemmas then state what those functions guarantee:

- The clusters partition the points.
- Each member of a cluster sits in the cluster of its nearest centroid.
- Each mean lies in its cluster's bounding box and does not depend on member order.
- A converged or failed run stays as it is.
- `atoi` reads back every integer written in decimal.
- A successful assign/update round, and so every run, never increases the within-cluster sum of squares.

The distance `dist` is `sqrt` of a sum of squares. The model compares the sums themselves (`SqDist`). `RootsOrdered` and `NotBelowMatchesRoot` show that every comparison the C code makes on distances (`<` between two distances, `>= eps` against the threshold) has the same outcome on the squared sums.

Modules, one per file:

| file | module | models |
|---|---|---|
| wrappers.dfy | Wrappers | `Option` and `Result` |
| real_arith.dfy | RealArith | facts about products of reals |
| vectors.dfy | Vectors | vectors, `dist`, `copy_entries`, `zero_vector`, `sum_entries`, `divide_by_scalar` |
| assignment.dfy | Assignment | `arg_min_dist`, `assign_data_points_to_clusters` |
| update.dfy | Update | `count_vectors_in_cluster`, `sum_vectors_in_cluster`, `get_new_centroids` |
| convergence.dfy | Convergence | `compute_flag_delta` |
| kmeans.dfy | KMeans | `copy_first_K_vectors`, `k_means` |
| arguments.dfy | Arguments | `is_number`, `check_argument`, the argument handling of `main` |
| driver.dfy | Driver | `main` without its input and output |
| descent.dfy | Descent | the within-cluster sum of squares that the rounds of `k_means` never increase |

## Model

| member | source | states |
|---|---|---|
| Vectors.SquareSign | mykmeanssp.c:580 | a square `pow(x, 2)` is never negative, and it is positive when x is not zero |
| Vectors.SqDistZero | mykmeanssp.c:572-586 | a squared distance is never negative; it is zero between equal vectors and positive between different ones |
| Vectors.Dist | mykmeanssp.c:572-586 | the loop sums the squared coordinate differences to exactly `SqDist(u, v)`, the square of the distance |
| Vectors.NotBelowMatchesRoot | mykmeanssp.c:561 | the test on the squared distance holds exactly when its root, the distance, is at least eps, for every sign of eps |
| Vectors.RootsOrdered | mykmeanssp.c:390 | two squared distances compare with `<` exactly as their roots do |
| Vectors.CopyEntries | mykmeanssp.c:313-338 | the copy has the same values in the same order |
| Vectors.ZeroVector | mykmeanssp.c:465-492 | d entries, all of them 0 |
| Vectors.SumEntries | mykmeanssp.c:433-463 | the sum has min(\|u\|, \|v\|) entries, and entry k is u[k] + v[k] |
| Vectors.DivideByScalar | mykmeanssp.c:508-536 | the length is kept and every entry is divided by the scalar |
| Assignment.Nearest | mykmeanssp.c:381-398 | the index scanned out of the centroids is a valid centroid index |
| Assignment.NearestIsNearest | mykmeanssp.c:381-398 | no centroid is nearer than centroid `Nearest`, and every centroid before it is strictly farther (ties go to the lowest index) |
| Assignment.NearestUnique | mykmeanssp.c:381-398 | an index that is nearest and has every earlier centroid strictly farther is `Nearest`: the tie-break fixes the answer |
| Assignment.ArgMinDist | mykmeanssp.c:381-398 | the strict-`<` scan from "no candidate yet" returns `Nearest(point, centroids)` |
| Assignment.ClusterOf | mykmeanssp.c:361-376 | a cluster built from d-dimensional points holds d-dimensional vectors |
| Assignment.ClustersShape | mykmeanssp.c:352-358 | there are K clusters, and all their members have dimension d |
| Assignment.AssignDataPointsToClusters | mykmeanssp.c:345-379 | the K lists filled in place are exactly `Clusters(points, centroids)`, so each point is prepended to the list of its nearest centroid |
| Assignment.ClusterMembersBelong | mykmeanssp.c:345-379 | every member of cluster j is one of the points, and centroid j is its nearest centroid |
| Assignment.PointInItsCluster | mykmeanssp.c:345-379 | every point is in the cluster of its nearest centroid |
| Assignment.MembersSize | mykmeanssp.c:345-379 | the members of the clusters, counted with multiplicity, number as many as the clusters' combined size |
| Assignment.MembersPrepend | mykmeanssp.c:371-374 | prepending a point to one cluster adds exactly that one point to the members |
| Assignment.ClustersStep | mykmeanssp.c:361-376 | assigning one more point prepends it to its nearest centroid's cluster and leaves the other clusters as they were |
| Assignment.ClustersPartition | mykmeanssp.c:345-379 | the clusters partition the points: their members are the points, each as often as it occurs, and their sizes sum to N |
| Assignment.EmptyClustersHaveNoMembers | mykmeanssp.c:357-358 | K empty lists have no members |
| Update.Mean | mykmeanssp.c:403-431 | the mean of a non-empty cluster of d-dimensional vectors has d coordinates |
| Update.CoordSumAppend | mykmeanssp.c:494-506 | the coordinate sum of a concatenation is the sum of the parts' sums |
| Update.CoordSumRemove | mykmeanssp.c:494-506 | removing one member takes its coordinate out of the sum |
| Update.CoordSumPermutation | mykmeanssp.c:494-506 | the coordinate sum does not depend on the order of the members |
| Update.MeanPermutation | mykmeanssp.c:403-431 | the mean depends only on the multiset of members, so the latest-first order of the cluster lists does not change the centroid |
| Update.MeanOfSingleton | mykmeanssp.c:403-431 | a cluster of one vector has that vector as its centroid |
| Update.CoordSumBounds | mykmeanssp.c:494-506 | a coordinate sum over n members lies between n copies of a lower bound and n copies of an upper bound of that coordinate |
| Update.MeanBounded | mykmeanssp.c:403-431 | every coordinate of a centroid lies between the smallest and the largest value that coordinate takes in its cluster |
| Update.CountVectorsInCluster | mykmeanssp.c:538-548 | the count is the number of members |
| Update.SumVectorsInCluster | mykmeanssp.c:494-506 | starting from the zero vector, the sum has d coordinates and coordinate k is the sum of the members' coordinate k |
| Update.GetNewCentroids | mykmeanssp.c:403-431 | new centroid i is the mean of cluster i: its coordinate sum divided by its count |
| Convergence.ComputeFlagDelta | mykmeanssp.c:550-569 | the flag is 1 exactly when every centroid moved by less than eps, and 0 exactly when some centroid moved by eps or more |
| Convergence.UnmovedConverged | mykmeanssp.c:550-569 | centroids that did not move count as converged exactly when eps is positive |
| KMeans.CopyFirstKVectors | mykmeanssp.c:291-311 | K centroids, and centroid i has the coordinates of point i, in order |
| KMeans.NewCentroids | mykmeanssp.c:403-431 | the update succeeds exactly when no cluster is empty, and then yields K centroids of dimension d |
| KMeans.NewCentroidsAreMeans | mykmeanssp.c:403-431 | the means of non-empty clusters are what the update makes of them |
| KMeans.Round | mykmeanssp.c:266-271 | a successful assign/update round from K centroids yields K centroids of dimension d |
| KMeans.Iterate | mykmeanssp.c:258-284 | after n passes of the loop, at most n rounds have run, and exactly n unless the run converged after at least one round |
| KMeans.IterateConvergedStable | mykmeanssp.c:259 | once the flag is 1 the loop exits: further passes change nothing |
| KMeans.IterateFailedStable | mykmeanssp.c:258-284 | a failed run stays failed |
| KMeans.IterateLastPass | mykmeanssp.c:258-284 | a state after at least one round came from an unconverged state one round earlier by one application of the loop body |
| KMeans.IterateStops | mykmeanssp.c:259 | the loop ends with the state after `iter` passes, once it has converged or reached `iter` |
| KMeans.IterateNext | mykmeanssp.c:258-284 | from an unconverged state, one more pass applies the loop body once and counts one more round |
| KMeans.IterateKeeps | mykmeanssp.c:258-284 | a property of the centroids that every loop body keeps holds throughout the run |
| KMeans.LloydStep | mykmeanssp.c:263-283 | one pass of the loop body from K d-dimensional centroids yields K d-dimensional centroids, and its only possible failure is an empty cluster |
| KMeans.LloydStepShape | mykmeanssp.c:263-283 | a pass from K d-dimensional centroids yields K d-dimensional centroids |
| KMeans.LloydStepFails | mykmeanssp.c:424 | a pass over centroids that leave a cluster empty fails |
| KMeans.LloydFails | mykmeanssp.c:258-284 | an empty cluster ends the run: the state after every later pass is that failure |
| KMeans.LloydAdvances | mykmeanssp.c:263-283 | with no empty cluster, one more pass moves the centroids to the means of their clusters and sets the flag by the eps test on every centroid |
| KMeans.LloydShape | mykmeanssp.c:258-284 | a run seeded with K d-dimensional centroids keeps K d-dimensional centroids |
| KMeans.LloydLastRound | mykmeanssp.c:258-288 | the returned centroids are one round from the previous, unconverged centroids, and the run has converged exactly when no centroid moved by eps or more in that round |
| KMeans.KMeansPass | mykmeanssp.c:263-283 | the loop body in place: the new centroids and flag are what one pass of `LloydStep` yields, or the failure when a cluster is empty |
| KMeans.KMeansRound | mykmeanssp.c:263-283 | one pass from the unconverged state after n passes gives the state after n + 1 passes: the `EmptyCluster` failure when a cluster is empty, otherwise the new centroids and the flag |
| KMeans.KMeans | mykmeanssp.c:248-289 | the driver returns the state after `iter` passes of the loop from the first K points |
| KMeans.EveryPointItsOwnCluster | mykmeanssp.c:248-289 | with K = N distinct points and eps > 0, each point is its own cluster, and the run converges after one round with the points as centroids |
| KMeans.NearestIsSelf | mykmeanssp.c:381-398 | among distinct points, each point's nearest point is itself |
| KMeans.SingletonClusters | mykmeanssp.c:345-379 | when N distinct points are assigned to themselves, the first m of them fill exactly the first m clusters |
| Arguments.IsNumber | mykmeanssp.c:226-244 | 1 exactly for a non-NULL, non-empty string with only digits after an optional leading '-' (so "-" passes), else 0 |
| Arguments.DigitChar | mykmeanssp.c:217 | a digit value's character is a digit with that value; it builds the decimal forms that `AtoiShow` reads back with `atoi` |
| Arguments.ShowNat | mykmeanssp.c:217 | the decimal form of a natural number is a non-empty string of digits, the inverse of `atoi` used by `AtoiShow` |
| Arguments.Atoi | mykmeanssp.c:217 | `atoi` on a string `is_number` accepts is never positive after a leading '-' and never negative without one, and is 0 exactly when every digit is '0' (so a lone "-" reads as 0) |
| Arguments.DigitsValueZero | mykmeanssp.c:217 | a string of digits reads as 0 exactly when every digit is '0' |
| Arguments.DigitsValueShowNat | mykmeanssp.c:217 | the digits of n read back to n |
| Arguments.AtoiShow | mykmeanssp.c:212-244 | every integer written in decimal passes `is_number`, and `atoi` reads it back |
| Arguments.LoneDash | mykmeanssp.c:230-238 | a lone "-" passes `is_number` and reads as 0; the empty string does not pass |
| Arguments.CheckArgument | mykmeanssp.c:212-223 | 1 exactly when the argument is a number and smallest < atoi(arg) < largest (both bounds exclusive), else 0 |
| Arguments.AcceptedShow | mykmeanssp.c:212-223 | a decimal integer passes the check exactly when it lies strictly between the bounds |
| Arguments.ErrorMessages | mykmeanssp.c:103-106 | "Invalid number of clusters!" is printed exactly when K was rejected and "Invalid maximum iteration!" exactly when iter was, one line each |
| Arguments.ParseArguments | mykmeanssp.c:74-107 | the arguments are accepted exactly when K passes 1 < K < N, and iter passes 1 < iter < 1000 if given as a second argument; K and iter are then read with `atoi`, and iter defaults to 200; on rejection the error flags exactly the checks that failed, and at least one message is printed |
| Driver.Run | mykmeanssp.c:67-109 | valid arguments give the result of `k_means` with those K and iter and eps = 0.001; any other arguments give no run, and an error that flags exactly the failed checks |
| Descent.MeanDeviation | mykmeanssp.c:403-431 | on every coordinate, the members of a non-empty cluster differ from its mean by 0 in total |
| Descent.MeanColumnBest | mykmeanssp.c:403-431 | on every coordinate, no value is closer to the members, in summed squared difference, than the mean's coordinate |
| Descent.MeanBest | mykmeanssp.c:403-431 | no vector has a smaller summed squared distance to the members of a cluster than its mean has |
| Descent.GroupPrepend | mykmeanssp.c:371-374 | prepending a point to cluster m adds its squared distance to centroid m to the clusters' total, and nothing else |
| Descent.AssignedByCluster | mykmeanssp.c:345-379 | summing each point's squared distance to the centroid of its cluster point by point gives the same total as summing cluster by cluster |
| Descent.ReassignNoWorse | mykmeanssp.c:381-398 | assigning every point to its nearest new centroid costs no more than keeping it with the new centroid of its old cluster |
| Descent.MeansNoWorse | mykmeanssp.c:403-431 | moving every centroid to the mean of its cluster does not raise the clusters' summed squared distance |
| Descent.RoundNoWorse | mykmeanssp.c:266-271 | a successful assign/update round does not increase the within-cluster sum of squares |
| Descent.PassNoWorse | mykmeanssp.c:263-283 | a pass of the loop that succeeds leaves the within-cluster sum of squares where it was or lower |
| Descent.RunNoWorse | mykmeanssp.c:258-284 | at every point of a successful run the within-cluster sum of squares is at most that of the seed centroids |

## Left out

- The Python extension layer (`k_means_module_imp`, `convert_from_python_to_c`, `convert_from_c_to_python`, the method table and the module init, mykmeanssp.c:647-783) is foreign marshalling against CPython.
- `read_data_points` (mykmeanssp.c:113-177) and the printing in `print_vectors`, `print_centroids` and `main` are input and output. The points are a parameter of `Driver.Run`. For rejected arguments it returns an `ArgError` that says which checks failed; `main` then prints "Invalid number of clusters!" and/or "Invalid maximum iteration!" (the lines of `Arguments.ErrorMessages`) and returns 1.
- Memory management is left out, because it disappears once lists become sequences and arrays. That covers the `free_*` functions, the backup pointers, `free_backups` and `mem_error`'s `exit(1)` (mykmeanssp.c:19-21, 588-642).
- Floating point is left out: coordinates are exact reals, so the rounding of `pow`, `sqrt`, sums and divisions is not modelled. Neither are infinities, NaN or the largest finite double.
- Assignment.ArgMinDist: it does not model the `DBL_MAX` upper sentinel (mykmeanssp.c:382). The scan starts from "no candidate yet" instead. In C, when no distance is below `DBL_MAX` (an infinite or NaN distance), `min_index` stays -1, and the point is then written to `clusters[-1]` (mykmeanssp.c:371-374). With exact reals every distance is a candidate, so this out-of-bounds path is part of the floating-point exclusion.
- Vectors.Dist: it returns the squared distance, not the distance itself. `sqrt` is replaced by the two root lemmas in Vectors.
- Arguments.CheckArgument: `atoi` is exact on every numeral. C's `atoi` has undefined behaviour on values that overflow `int`.
- Arguments.IsNumber: the argument must not contain NUL, which holds for any C string. `isdigit` on characters outside ASCII is not modelled.
- KMeans.KMeans: `iter >= 1` is required, because with iter <= 0 the C code frees the uninitialised `clusters` pointer (mykmeanssp.c:251, 286). `main` only passes iter > 1.
- KMeans.KMeans: an empty cluster makes the C code divide a zero sum by a zero count (mykmeanssp.c:424). The model stops with `Err(EmptyCluster)` there, and Update.GetNewCentroids requires non-empty clusters. What the C code does after that division (NaN coordinates) is not modelled.
- KMeans: the `BadDimensions` branch of `LloydStep` only makes the step function total. By `LloydShape`, a run seeded from the points never reaches it.
- The null check after the allocation in `read_data_points` tests the wrong pointer (mykmeanssp.c:163). That function belongs to the input layer and is not part of this model.
- The check in `kmeans_pp.py` is left out. That file is pandas/numpy file handling and k-means++ seeding, its call into the C engine is commented out, and its only logic duplicates the argument range check. kmeans_pp.py is not part of this model.
- The iter bound follows `main`'s check 1 < iter < 1000 (mykmeanssp.c:78), so iter = 1 is rejected.
