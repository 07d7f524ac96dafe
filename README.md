# Cached image distances and k-medoid clustering, modelled in Dafny

This project models the computational core of MatrixClassifier. That core has three sequential pieces, all built on an abstract image distance `Calculate(img1, img2)`.

- **`CachedMetric`** is a memoizing wrapper around a base metric. Its dictionary is keyed by the canonical index pair `(min(i, j), max(i, j))`.
  - On a hit it returns the stored distance.
  - On a miss it computes the distance, stores it and returns it.
  - When either index is missing, it bypasses the dictionary.
- **`CachePrecomputeRoutine.Run`** runs two nested loops over all ordered pairs of distinct dataset positions. Each pair goes through the cache, so afterwards every unordered pair is stored.
- **`KMedoidRoutine`** starts from `K` medoids drawn from the data. Each iteration runs:
  - an assign step: every image joins the cluster of its closest medoid, with the first medoid winning a tie;
  - an update step: each cluster's new medoid is its member with the least sum of distances to the whole cluster, with the first member winning.
  - The loop stops when the identities of the new medoids equal the old ones, or after `CLASSIF_ITERS` iterations.
  - `GetClusters` runs the assign step for the current medoids.

Modelling choices:

- **Images.** Images are opaque values of a type parameter `Img`. An image is named by its position in the dataset. The source compares medoids by object identity (`id`), and every entry of the routine's data list is a distinct object, so identity is position.
- **Metric.** The metric is an uninterpreted function to non-negative reals.
- **Files.**
  - `metrics.dfy` holds the shared types.
  - `distance_cache.dfy` holds the cache: a class `CachedMetric` with a `map` field, whose `Calculate` method is proved equal to the value-level `ComputeOrFetch`.
  - `cache_precompute.dfy` holds the precompute routine: a class whose `Run` method has the outer loop and whose `VisitRow` method has the inner loop, with their invariants over the cache map. `CachedMetric` keeps a ghost log of the index arguments of every `Calculate` call. Each driver method states what it appends to that log. Lemmas state that a run appends one call for every ordered pair of distinct positions, each exactly once, in row-major order, and no other call.
  - `kmedoid.dfy` holds the clustering: `Run` and `GetClusters` are methods with loops that mirror the source's append loops, proved against the functions `Assign`, `Update`, `Step` and `Iterate`; the lemmas state what those functions guarantee.
- **Clusters.** The source keeps the clusters in a dictionary keyed by medoid. Here they are a list parallel to the medoid list, in the dictionary's insertion order. This is sound because the medoids are proved distinct at every iteration, so no two dictionary keys would ever merge.
- **Errors.** A Python `min` over an empty sequence raises `ValueError`, and `random.sample` of more items than the population raises as well. Both are modelled as `Err` results: `EmptySequence` and `SampleLargerThanPopulation`.
- **Run's result.** `Run` returns its termination status and the number of iterations it began, in place of the source's progress messages.

Facts about the code that shape the model:

- **The clusterer bypasses the cache.** `KMedoidRoutine` calls `metric.Calculate(img, medoid)` and `metric.Calculate(img, other)` without indices (KMedoidRoutine.py:35, 41). Even a `CachedMetric` passed to it would therefore compute every distance afresh, and its entry point hands it the plain norm metric anyway. So the model's clusterer takes a plain `Metric`.
- **`K` is checked only by `random.sample`.** `random.sample(self.data, K)` (KMedoidRoutine.py:22) raises only when `K` exceeds the number of images; `K == 0` is accepted. The model's `KMedoidRoutine.New` has exactly that one error, and `K` is a `nat`.
- **Equal indices are cached too.** `Calculate(img1, img2, i, i)` builds the key `(i, i)`, evaluates the base metric on a miss and stores the result under `(i, i)` (CachedMetric.py:27-36). `ComputeOrFetch` does the same; only the precompute loop skips the diagonal (CachePrecomputeRoutine.py:34-35).
- **Sequential and in memory.** The modelled files contain no worker pool, no sampling of pairs and no serialisation code; the loops run one call at a time.

## Model

| member | source | states |
|---|---|---|
| DistanceCache.KeyOf | Module/Metrics/CachedMetric.py:27 | the key is the two indices in order, smaller first |
| DistanceCache.ComputeOrFetch | Module/Metrics/CachedMetric.py:26-38 | without both indices: the base distance is returned and the cache is unchanged. A hit returns the stored value, leaves the cache unchanged and evaluates nothing. A miss returns the base distance and adds exactly its key. Afterwards the key holds the returned value. No entry is removed or overwritten, and canonical key order is kept |
| DistanceCache.KeySymmetric | Module/Metrics/CachedMetric.py:27 | `(i, j)` and `(j, i)` give the same key |
| DistanceCache.ArgumentOrder | Module/Metrics/CachedMetric.py:26-36 | swapping images and indices gives the same key set and the same hit/miss outcome. For a symmetric base metric the whole result is the same |
| DistanceCache.Idempotent | Module/Metrics/CachedMetric.py:27-38 | repeating an indexed call, in either index order and with any images, returns the first answer, leaves the cache unchanged and does not evaluate the base metric |
| DistanceCache.IndexedGrowth | Module/Metrics/CachedMetric.py:26-36 | an indexed call adds one entry to the cache exactly when it consults the base metric, and none otherwise |
| DistanceCache.CachedMetric.constructor | Module/Metrics/CachedMetric.py:6-13 | an empty cache in front of the given metric, with no call logged |
| DistanceCache.CachedMetric.Calculate | Module/Metrics/CachedMetric.py:15-38 | the returned distance and the new cache are those of `ComputeOrFetch` on the old cache. The base metric is consulted once exactly when `ComputeOrFetch` evaluates. All stored keys stay in canonical order. The call's index arguments are appended to the log |
| CachePrecompute.Completed | CachePrecomputeRoutine.py:27-42 | the completed cache's keys are the old keys plus the pair keys. Old entries are kept, and each new key `(a, b)` holds `metric(data[a], data[b])` |
| CachePrecompute.PairsMembership | CachePrecomputeRoutine.py:27-35 | a key is one of the unordered pairs of `n` items exactly when `0 <= a < b < n` |
| CachePrecompute.PairsCount | CachePrecomputeRoutine.py:27-42 | there are `n·(n−1)/2` unordered pairs |
| CachePrecompute.FromEmpty | CachePrecomputeRoutine.py:27-42 | from an empty cache the final keys are exactly the `n·(n−1)/2` unordered pairs, with no diagonal key. Each holds the distance of its two images |
| CachePrecompute.InnerStep | CachePrecomputeRoutine.py:34-42 | one inner call for `i != j` advances the loop position by one: the cache is the old cache completed on the pairs visited up to `(i, j + 1)`. A call for `(i, j)` with `j < i` is a cache hit and does not evaluate the base metric |
| CachePrecompute.DiagonalStep | CachePrecomputeRoutine.py:34-35 | skipping `j == i` advances the loop position without changing the cache |
| CachePrecompute.RowDone | CachePrecomputeRoutine.py:27-32 | the end of row `i` is the start of row `i + 1` |
| CachePrecompute.AllVisited | CachePrecomputeRoutine.py:27-42 | once every outer index is done, the cache is the old cache completed on all unordered pairs |
| CachePrecompute.CachePrecomputeRoutine.constructor | CachePrecomputeRoutine.py:9-18 | the routine owns a fresh, empty `CachedMetric` around the given metric, with no call logged |
| CachePrecompute.CallsMembership | CachePrecomputeRoutine.py:27-42 | the calls made before loop position `(i, j)` are exactly the ordered pairs of distinct positions that come before it in row-major order |
| CachePrecompute.CallsLength | CachePrecomputeRoutine.py:27-42 | before position `(i, j)` there have been `i·(n−1)` calls for the finished rows plus one per other column before `j` |
| CachePrecompute.CallsOrder | CachePrecomputeRoutine.py:27-42 | the calls come in strictly increasing row-major order, so none repeats |
| CachePrecompute.EveryOrderedPairOnce | CachePrecomputeRoutine.py:27-42 | the row-major pair sequence of a full run holds every ordered pair `(i, j)` of distinct positions and nothing else: `n·(n−1)` entries, no two alike |
| CachePrecompute.RunLog | CachePrecomputeRoutine.py:27-42 | the calls a run appends to the log are exactly `Calculate(.., i, j)` for the ordered pairs of distinct positions, with both indices given: `n·(n−1)` calls, no two alike |
| CachePrecompute.RunLogNext | CachePrecomputeRoutine.py:27-42 | the calls before row `i + 1` are those before row `i` followed by row `i`'s calls |
| CachePrecompute.RowLogIsIndexed | CachePrecomputeRoutine.py:30-42 | row `i`'s calls are `Calculate(.., i, j)` for its index pairs |
| CachePrecompute.RowLogSkip | CachePrecomputeRoutine.py:34-35 | skipping `j == i` logs no call |
| CachePrecompute.RowLogNext | CachePrecomputeRoutine.py:37-42 | one more inner index `j != i` logs the call `Calculate(.., i, j)` |
| CachePrecompute.RowCallsNext | CachePrecomputeRoutine.py:30-42 | one more inner index adds the call `(i, j)` to the row, except when `j == i` |
| CachePrecompute.RowIsCalls | CachePrecomputeRoutine.py:27-42 | the calls before `(i, m)` are those of the finished rows followed by row `i`'s calls before `m` |
| CachePrecompute.CachePrecomputeRoutine.Run | CachePrecomputeRoutine.py:20-42 | an empty dataset leaves the cache as it was and makes no call. Otherwise the new cache is the old one completed on every unordered pair of positions, with the values of the pairs' images. The base metric is evaluated exactly once per key added. The calls appended to the metric's log are `Calculate(.., i, j)` for the full row-major pair sequence, which by `RunLog` is every ordered pair of distinct positions once |
| CachePrecompute.CachePrecomputeRoutine.VisitRow | CachePrecomputeRoutine.py:30-42 | the inner loop for row `i` takes the cache from the start of row `i` to the start of row `i + 1`, evaluates the base metric once per key added, and appends to the metric's log the calls `Calculate(.., i, j)` for every `j != i`, in increasing `j` |
| CachePrecompute.CachePrecomputeRoutine.VisitPair | CachePrecomputeRoutine.py:37-42 | one indexed call advances the loop position by one, evaluates the base metric once per key added, and leaves the cache unchanged when `j < i`. It appends exactly the call `Calculate(.., i, j)` to the log |
| KMedoid.FirstMin | KMedoidRoutine.py:35 | Python `min` by key: a position whose key is least, and no earlier key is as small |
| KMedoid.FirstMinUnique | KMedoidRoutine.py:35 | those two properties determine the position |
| KMedoid.Closest | KMedoidRoutine.py:35 | the chosen medoid slot minimises the distance from the image over all medoids. Every earlier slot is strictly farther |
| KMedoid.Owners | KMedoidRoutine.py:34-35 | plumbing for `Assign`: the list of every image's closest medoid slot, as `Closest` gives it |
| KMedoid.MembersExactly | KMedoidRoutine.py:33-36 | a cluster, built up to item `upto`, holds exactly the earlier items that the slot owns, in strictly increasing data order |
| KMedoid.AssignmentStep | KMedoidRoutine.py:36 | placing one image appends it to its owner's cluster and changes no other cluster |
| KMedoid.AssignmentSize | KMedoidRoutine.py:33-36 | the cluster sizes sum to the number of items placed |
| KMedoid.Assign | KMedoidRoutine.py:33-36 | the assign step fails exactly when there are images but no medoid, and then with `EmptySequence` (the `min` of an empty sequence). Otherwise it gives one cluster per medoid |
| KMedoid.AssignPartition | KMedoidRoutine.py:33-36 | the assign step fails exactly when there are images but no medoid. Otherwise it gives one cluster per medoid, and each image is in exactly the cluster of its closest medoid. Members are in data order, and the sizes sum to the number of images |
| KMedoid.AssignStep | KMedoidRoutine.py:33-36 | the assign loop's result is `Assign` |
| KMedoid.SumDist | KMedoidRoutine.py:41 | a sum of distances is non-negative |
| KMedoid.Central | KMedoidRoutine.py:41 | the new medoid is a member of the cluster with the least sum of distances to all members, itself included. No earlier member has a sum as small |
| KMedoid.Update | KMedoidRoutine.py:39-42 | the update step fails exactly when some cluster is empty. Otherwise it gives one new medoid per cluster, in cluster order, each a member of its own cluster, and each is `Central` of its cluster: the first member with the least distance sum |
| KMedoid.UpdateStep | KMedoidRoutine.py:39-42 | the update loop's result is `Update` |
| KMedoid.Step | KMedoidRoutine.py:33-42 | a successful iteration gives as many medoids as before, all positions of the data |
| KMedoid.StepInOwnCluster | KMedoidRoutine.py:33-42 | each new medoid of slot `c` has slot `c` as its closest old medoid |
| KMedoid.StepDistinct | KMedoidRoutine.py:33-42 | the new medoids of a successful iteration are distinct |
| KMedoid.NoEmptyCluster | KMedoidRoutine.py:33-42 | an iteration cannot fail when every medoid is strictly nearer to itself than to the other medoids |
| KMedoid.StepParts | KMedoidRoutine.py:33-42 | an iteration is the assign step followed by the update of its clusters, and it fails when the assign step fails |
| KMedoid.AssignAndUpdate | KMedoidRoutine.py:32-42 | the loop body's result is `Step`. On success the new medoids are distinct positions, one per old medoid |
| KMedoid.StepOf | KMedoidRoutine.py:33-42 | plumbing: the step of one dataset and metric as a function value, agreeing with `Step` on every list of distinct positions of the dataset |
| KMedoid.Advance | KMedoidRoutine.py:45-49 | after one more iteration the run has failed, has converged on the current medoids, or goes on from the new medoids |
| KMedoid.Identities | KMedoidRoutine.py:45 | `set(map(id, medoids))`: a position is in the identity set exactly when it is in the list |
| KMedoid.IdentitiesCount | KMedoidRoutine.py:45 | the identity set has at most as many elements as the list, and exactly as many when the list is distinct |
| KMedoid.Iterate | KMedoidRoutine.py:29-49 | a run begins at most `fuel` iterations, and all `fuel` of them when it ends exhausted. It never reports "nothing to do" |
| KMedoid.IterateMedoids | KMedoidRoutine.py:45-49 | a run ends with the medoids it started from, or with those of the run that goes on from the first step's medoids |
| KMedoid.StepKeepsProper | KMedoidRoutine.py:33-42 | a successful iteration maps `k` distinct positions to `k` distinct positions |
| KMedoid.IterateKeepsProper | KMedoidRoutine.py:29-49 | if a step keeps `k` distinct positions distinct, a whole run ends with `k` distinct positions |
| KMedoid.IterateStops | KMedoidRoutine.py:45-47 | a converged run's final medoids step to medoids with the same identity set. A failed run's final medoids step to that same error |
| KMedoid.KMedoidRoutine.constructor | KMedoidRoutine.py:12-22 | the routine holds the data, the metric and the given initial medoids |
| KMedoid.KMedoidRoutine.New | KMedoidRoutine.py:20-22 | construction fails exactly when `K` exceeds the number of images. Otherwise the medoids are the drawn `K` distinct positions |
| KMedoid.KMedoidRoutine.Run | KMedoidRoutine.py:24-49 | with no images it does nothing and keeps the medoids. Otherwise its status, iteration count and final medoids are those of `Iterate` over `CLASSIF_ITERS` iterations. The medoids stay distinct positions, as many as before |
| KMedoid.KMedoidRoutine.GetClusters | KMedoidRoutine.py:53-59 | the assign step of the current medoids, without changing them |

## Left out

- `ToPickle` and the cache file (CachePrecomputeRoutine.py:45) are left out. This is file I/O, and the method is not defined in `CachedMetric`.
- `print` messages and the `__main__` entry points are left out. They are output and wiring, with no logic.
- Dataset loading (`Dataset.py`, `Module/Dataset.py`): the dataset is a sequence of opaque images with a length and indexing.
- The Frobenius and L2 norms of `MatrixNormDifference.py`, and their shape and norm-type errors, are left out. The metric is an uninterpreted non-negative function; floating-point arithmetic is not modelled.
- Distance sums are over reals. Floating-point rounding, which could change a tie between sums, is not modelled.
- `random.sample` (KMedoidRoutine.py:22) is not modelled as randomness. The initial medoids are a caller-supplied draw of `K` distinct positions.
- DistanceCache.CachedMetric.evaluations: this ghost counter of base-metric calls does not exist in the source. It exists only to state the hit/miss promises.
- DistanceCache.CachedMetric.log: this ghost log of `Calculate`'s index arguments has no counterpart in the source. `Calculate` appends to it, so that the order and count of the precompute loops' calls can be stated.
- VisualizeMetricRoutine.py and VisualizerRoutine.py are not part of this model: plotting only.
