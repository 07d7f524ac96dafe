/** The all-pairs precompute driver: for every ordered pair of distinct
    dataset positions it asks the memoizing metric for their distance, so
    that afterwards every unordered pair is cached. */
module CachePrecompute {
  import opened Metrics
  import opened DistanceCache

  /** The unordered pairs of distinct positions in a dataset of `n` items,
      each written as its canonical key. */
  function Pairs(n: int): set<Key> {
    set a, b | 0 <= a < b < n :: (a, b)
  }

  /** Column `b` of the pair triangle, cut at `k`: the pairs `(a, b)` with `0 <= a < k`. */
  function Column(k: int, b: int): set<Key> {
    set a | 0 <= a < k :: (a, b)
  }

  /** Every key of `keys` names two positions of `data`. */
  ghost predicate WithinData<Img>(keys: set<Key>, data: seq<Img>) {
    forall k :: k in keys ==> 0 <= k.0 < |data| && 0 <= k.1 < |data|
  }

  /** `cache` completed on `keys`: entries already present are kept, each
      missing key `(a, b)` holds `metric(data[a], data[b])`. */
  function Completed<Img>(cache: Cache, keys: set<Key>, data: seq<Img>, metric: Metric<Img>): (m: Cache)
    requires WithinData(keys, data)
    ensures m.Keys == cache.Keys + keys
    ensures forall k :: k in cache ==> m[k] == cache[k]
    ensures forall k :: k in keys && k !in cache ==> m[k] == metric(data[k.0], data[k.1])
  {
    map k | k in cache.Keys + keys :: if k in cache then cache[k] else metric(data[k.0], data[k.1])
  }

  /** A key is an unordered pair of a dataset of `n` items exactly when it
      names two positions below `n`, smaller first. */
  lemma PairsMembership(n: int, k: Key)
    ensures k in Pairs(n) <==> 0 <= k.0 < k.1 < n
  {
    if 0 <= k.0 < k.1 < n {
      var (a, b) := k;
      assert (a, b) in Pairs(n);
    }
  }

  /** Column `b` cut at `k` holds `k` pairs. */
  lemma {:induction false} ColumnSize(k: nat, b: int)
    ensures |Column(k, b)| == k
  {
    if k > 0 {
      assert Column(k, b) == Column(k - 1, b) + {(k - 1, b)};
      ColumnSize(k - 1, b);
    }
  }

  /** A dataset of `n` items has `n·(n−1)/2` unordered pairs. */
  lemma {:induction false} PairsCount(n: nat)
    ensures |Pairs(n)| == n * (n - 1) / 2
  {
    if n > 0 {
      var column := Column(n - 1, n - 1);
      forall k ensures k in Pairs(n) <==> k in Pairs(n - 1) + column {
        PairsMembership(n, k);
        PairsMembership(n - 1, k);
      }
      assert Pairs(n) == Pairs(n - 1) + column;
      forall k | k in column ensures k !in Pairs(n - 1) {
        PairsMembership(n - 1, k);
      }
      assert Pairs(n - 1) !! column;
      ColumnSize(n - 1, n - 1);
      PairsCount(n - 1);
      TriangleStep(n - 1);
    }
  }

  /** `m·(m−1)/2 + m == (m+1)·m/2`. */
  lemma TriangleStep(m: nat)
    ensures m * (m - 1) / 2 + m == (m + 1) * m / 2
  {
    assert (m + 1) * m == m * (m - 1) + 2 * m;
  }

  /** Precomputing from an empty cache stores exactly the `n·(n−1)/2`
      unordered pairs, no diagonal key `(i, i)`, and for each pair `(a, b)`
      the distance of `data[a]` to `data[b]`. */
  lemma FromEmpty<Img>(data: seq<Img>, metric: Metric<Img>)
    ensures WithinData(Pairs(|data|), data)
    ensures var m := Completed(map[], Pairs(|data|), data, metric);
            && m.Keys == Pairs(|data|)
            && |m| == |data| * (|data| - 1) / 2
            && (forall k :: k in m ==> 0 <= k.0 < k.1 < |data| && m[k] == metric(data[k.0], data[k.1]))
  {
    forall k | k in Pairs(|data|) ensures 0 <= k.0 < k.1 < |data| {
      PairsMembership(|data|, k);
    }
    PairsCount(|data|);
    var m := Completed(map[], Pairs(|data|), data, metric);
    assert m.Keys == Pairs(|data|);
    assert |m| == |m.Keys|;
  }

  /** The loops, at outer position `i` and inner position `j`, have visited
      the unordered pair `k` of a dataset of `n` items. */
  ghost predicate Visited(k: Key, i: int, j: int, n: int) {
    0 <= k.0 < k.1 < n && (k.0 < i || (k.0 == i && k.1 < j))
  }

  /** `cache` is `c0` completed on the pairs visited by outer `i`, inner `j`. */
  ghost predicate CompletedUpTo<Img>(cache: Cache, c0: Cache, data: seq<Img>, metric: Metric<Img>,
                                     i: int, j: int)
  {
    && (forall k :: k in cache <==> k in c0 || Visited(k, i, j, |data|))
    && (forall k :: k in c0 ==> k in cache && cache[k] == c0[k])
    && (forall k :: k in cache && k !in c0 ==>
          0 <= k.0 < |data| && 0 <= k.1 < |data| && cache[k] == metric(data[k.0], data[k.1]))
  }

  /** One step of the inner loop: the call for `(i, j)` advances the loop
      position by one, and when `j < i` it is a hit on the pair stored
      while the outer index was `j`. */
  lemma InnerStep<Img>(cache: Cache, c0: Cache, data: seq<Img>, metric: Metric<Img>, i: nat, j: nat)
    requires i < |data| && j < |data| && i != j
    requires CompletedUpTo(cache, c0, data, metric, i, j)
    ensures CompletedUpTo(ComputeOrFetch(metric, cache, data[i], data[j], Some(i), Some(j)).cache,
                          c0, data, metric, i, j + 1)
    ensures j < i ==> !ComputeOrFetch(metric, cache, data[i], data[j], Some(i), Some(j)).evaluated
  {
    var r := ComputeOrFetch(metric, cache, data[i], data[j], Some(i), Some(j));
    if j < i {
      assert KeyOf(i, j) == (j, i) && Visited((j, i), i, j, |data|);
      assert r.cache == cache;
    } else {
      assert KeyOf(i, j) == (i, j);
      forall k ensures Visited(k, i, j + 1, |data|) <==> Visited(k, i, j, |data|) || k == (i, j) {
      }
    }
  }

  /** The inner loop skips `j == i`: the diagonal is never a visited pair. */
  lemma DiagonalStep<Img>(cache: Cache, c0: Cache, data: seq<Img>, metric: Metric<Img>, i: nat)
    requires CompletedUpTo(cache, c0, data, metric, i, i)
    ensures CompletedUpTo(cache, c0, data, metric, i, i + 1)
  {
    forall k ensures Visited(k, i, i, |data|) <==> Visited(k, i, i + 1, |data|) {
    }
  }

  /** The end of row `i` is the start of row `i + 1`. */
  lemma RowDone<Img>(cache: Cache, c0: Cache, data: seq<Img>, metric: Metric<Img>, i: nat)
    requires CompletedUpTo(cache, c0, data, metric, i, |data|)
    ensures CompletedUpTo(cache, c0, data, metric, i + 1, 0)
  {
    forall k ensures Visited(k, i, |data|, |data|) <==> Visited(k, i + 1, 0, |data|) {
    }
  }

  /** Once row `n` is reached every pair has been visited. */
  lemma AllVisited<Img>(cache: Cache, c0: Cache, data: seq<Img>, metric: Metric<Img>)
    requires CompletedUpTo(cache, c0, data, metric, |data|, 0)
    ensures WithinData(Pairs(|data|), data)
    ensures cache == Completed(c0, Pairs(|data|), data, metric)
  {
    forall k ensures k in Pairs(|data|) <==> Visited(k, |data|, 0, |data|) {
      PairsMembership(|data|, k);
    }
    var m := Completed(c0, Pairs(|data|), data, metric);
    assert cache.Keys == m.Keys;
  }

  /** The index pairs the two loops over `n` items pass to `Calculate`, in
      call order, before they reach outer index `i`, inner index `j`. */
  function CallsBefore(i: nat, j: nat, n: nat): seq<Key>
    decreases i, j
  {
    if j > 0 then
      if j - 1 == i then CallsBefore(i, j - 1, n) else CallsBefore(i, j - 1, n) + [(i, j - 1)]
    else if i > 0 then CallsBefore(i - 1, n, n)
    else []
  }

  /** The loops, at outer `i` and inner `j`, have already called `Calculate`
      for the ordered pair `k` of a dataset of `n` items. */
  ghost predicate Called(k: Key, i: int, j: int, n: int) {
    0 <= k.0 < n && 0 <= k.1 < n && k.0 != k.1 && (k.0 < i || (k.0 == i && k.1 < j))
  }

  /** A loop position: inner index at most `n`, and past the last row only at its start. */
  ghost predicate Position(i: nat, j: nat, n: nat) {
    i <= n && j <= n && (i == n ==> j == 0)
  }

  /** Strictly increasing in lexicographic order, so no entry twice. */
  ghost predicate LexIncreasing(s: seq<Key>) {
    forall p, q :: 0 <= p < q < |s| ==> s[p].0 < s[q].0 || (s[p].0 == s[q].0 && s[p].1 < s[q].1)
  }

  /** The calls made before a loop position are the ordered pairs passed by then. */
  lemma {:induction false} CallsMembership(i: nat, j: nat, n: nat)
    requires Position(i, j, n)
    ensures forall k :: k in CallsBefore(i, j, n) <==> Called(k, i, j, n)
    decreases i, j
  {
    if j > 0 {
      CallsMembership(i, j - 1, n);
      var before := CallsBefore(i, j - 1, n);
      if j - 1 != i {
        assert CallsBefore(i, j, n) == before + [(i, j - 1)];
        forall k ensures k in CallsBefore(i, j, n) <==> Called(k, i, j, n) {
          assert k in before + [(i, j - 1)] <==> k in before || k == (i, j - 1);
        }
      }
    } else if i > 0 {
      CallsMembership(i - 1, n, n);
      forall k ensures Called(k, i - 1, n, n) <==> Called(k, i, 0, n) {
      }
    }
  }

  /** The calls of row `i` before inner index `m`: `(i, j)` for each `j < m` but `i`. */
  function RowCalls(i: nat, m: nat): seq<Key> {
    seq(if i < m then m - 1 else m, p => (i, if p < i then p else p + 1))
  }

  /** One more inner index adds `(i, m)` to the row unless `m` is `i`. */
  lemma RowCallsNext(i: nat, m: nat)
    ensures RowCalls(i, m + 1) == RowCalls(i, m) + (if m == i then [] else [(i, m)])
  {
    if m != i {
      assert RowCalls(i, m + 1) == RowCalls(i, m) + [(i, m)];
    }
  }

  /** The calls made before `(i, m)` are those before row `i` followed by row `i`'s. */
  lemma {:induction false} RowIsCalls(i: nat, m: nat, n: nat)
    ensures CallsBefore(i, m, n) == CallsBefore(i, 0, n) + RowCalls(i, m)
    decreases m
  {
    if m > 0 {
      RowIsCalls(i, m - 1, n);
      RowCallsNext(i, m - 1);
    }
  }

  /** `i` full rows of `n − 1` calls each. */
  lemma RowsStep(i: nat, n: nat)
    requires 0 < i <= n
    ensures (i - 1) * (n - 1) + n - 1 == i * (n - 1)
  {
  }

  /** Before outer `i`, inner `j`, the loops have made
      `i·(n − 1) + j` calls, less one when row `i` has passed its diagonal. */
  lemma {:induction false} CallsLength(i: nat, j: nat, n: nat)
    requires Position(i, j, n)
    ensures |CallsBefore(i, j, n)| == i * (n - 1) + j - (if i < j then 1 else 0)
    decreases i, j
  {
    if j > 0 {
      CallsLength(i, j - 1, n);
    } else if i > 0 {
      CallsLength(i - 1, n, n);
      RowsStep(i, n);
    }
  }

  /** The calls come in lexicographic order of their index pairs. */
  lemma {:induction false} CallsOrder(i: nat, j: nat, n: nat)
    requires Position(i, j, n)
    ensures LexIncreasing(CallsBefore(i, j, n))
    decreases i, j
  {
    if j > 0 {
      CallsOrder(i, j - 1, n);
      CallsMembership(i, j - 1, n);
      var before := CallsBefore(i, j - 1, n);
      forall p | 0 <= p < |before| ensures Called(before[p], i, j - 1, n) {
        assert before[p] in before;
      }
    } else if i > 0 {
      CallsOrder(i - 1, n, n);
    }
  }

  /** The two loops over `n` items call `Calculate` once for every ordered
      pair `(i, j)` of distinct positions and for nothing else:
      `n·(n − 1)` calls, no pair twice. */
  lemma EveryOrderedPairOnce(n: nat)
    ensures forall k :: k in CallsBefore(n, 0, n) <==> 0 <= k.0 < n && 0 <= k.1 < n && k.0 != k.1
    ensures |CallsBefore(n, 0, n)| == n * (n - 1)
    ensures forall p, q :: 0 <= p < q < |CallsBefore(n, 0, n)| ==> CallsBefore(n, 0, n)[p] != CallsBefore(n, 0, n)[q]
  {
    CallsMembership(n, 0, n);
    CallsLength(n, 0, n);
    CallsOrder(n, 0, n);
  }

  /** The index arguments of the call `Calculate(.., k.0, k.1)`. */
  function CallOf(k: Key): Call {
    (Some(k.0), Some(k.1))
  }

  /** The index arguments of the calls `Calculate(.., i, j)` for the pairs of `s`. */
  function Indexed(s: seq<Key>): seq<Call> {
    seq(|s|, p requires 0 <= p < |s| => CallOf(s[p]))
  }

  /** A run over `n` items adds to the metric's log exactly one call
      `Calculate(.., i, j)` for every ordered pair of distinct positions,
      `n·(n − 1)` calls in all, and no other call. */
  lemma RunLog(n: nat)
    ensures forall c :: c in Indexed(CallsBefore(n, 0, n)) <==>
              c.0.Some? && c.1.Some? && 0 <= c.0.value < n && 0 <= c.1.value < n && c.0.value != c.1.value
    ensures |Indexed(CallsBefore(n, 0, n))| == n * (n - 1)
    ensures forall p, q :: 0 <= p < q < |Indexed(CallsBefore(n, 0, n))| ==>
              Indexed(CallsBefore(n, 0, n))[p] != Indexed(CallsBefore(n, 0, n))[q]
  {
    EveryOrderedPairOnce(n);
    var s := CallsBefore(n, 0, n);
    var log := Indexed(s);
    forall c ensures c in log <==>
        c.0.Some? && c.1.Some? && 0 <= c.0.value < n && 0 <= c.1.value < n && c.0.value != c.1.value
    {
      if c in log {
        var p :| 0 <= p < |log| && log[p] == c;
        assert s[p] in s;
      }
      if c.0.Some? && c.1.Some? && 0 <= c.0.value < n && 0 <= c.1.value < n && c.0.value != c.1.value {
        var k := (c.0.value, c.1.value);
        assert k in s;
        var p :| 0 <= p < |s| && s[p] == k;
        assert log[p] == c;
      }
    }
  }

  /** Row `i` turns its log of calls into the log of calls before row `i + 1`. */
  lemma RunLogNext(log0: seq<Call>, i: nat, n: nat)
    requires i < n
    ensures log0 + Indexed(CallsBefore(i + 1, 0, n))
            == log0 + Indexed(CallsBefore(i, 0, n)) + RowLog(i, n)
  {
    RowIsCalls(i, n, n);
    RowLogIsIndexed(i, n);
    assert CallsBefore(i + 1, 0, n) == CallsBefore(i, n, n);
    assert Indexed(CallsBefore(i, n, n)) == Indexed(CallsBefore(i, 0, n)) + Indexed(RowCalls(i, n));
  }

  /** The calls `Calculate(.., i, j)` of row `i` before inner index `m`. */
  function RowLog(i: nat, m: nat): seq<Call> {
    seq(if i < m then m - 1 else m, p => CallOf((i, if p < i then p else p + 1)))
  }

  /** The row's calls are those of its index pairs. */
  lemma RowLogIsIndexed(i: nat, m: nat)
    ensures RowLog(i, m) == Indexed(RowCalls(i, m))
  {
  }

  /** Skipping `j == i` adds no call to the log. */
  lemma RowLogSkip(log0: seq<Call>, i: nat)
    ensures log0 + RowLog(i, i + 1) == log0 + RowLog(i, i)
  {
  }

  /** One more inner index `j != i` adds the call `Calculate(.., i, j)` to the log. */
  lemma RowLogNext(log0: seq<Call>, i: nat, j: nat)
    requires j != i
    ensures log0 + RowLog(i, j + 1) == log0 + RowLog(i, j) + [CallOf((i, j))]
  {
    assert RowLog(i, j + 1) == RowLog(i, j) + [CallOf((i, j))];
  }

  /** The precompute routine over `dataset` and its own memoizing metric. */
  class CachePrecomputeRoutine<Img> {
    const dataset: seq<Img>
    const metricCache: CachedMetric<Img>

    /** `CachePrecomputeRoutine(dataset, metric, cache_file)`, without the file. */
    constructor (dataset: seq<Img>, metric: Metric<Img>)
      ensures this.dataset == dataset && fresh(metricCache)
      ensures metricCache.Valid() && metricCache.metric == metric
      ensures metricCache.cache == map[] && metricCache.evaluations == 0 && metricCache.log == []
    {
      this.dataset := dataset;
      metricCache := new CachedMetric(metric);
    }

    /** Asks the cache for every ordered pair of distinct positions.  The
        cache ends up completed on all unordered pairs, and the base metric
        is consulted once per key added, never for a key already present.
        The calls made are those of `CallsBefore(n, 0, n)`, in that order. */
    method Run()
      requires metricCache.Valid()
      modifies metricCache
      ensures metricCache.Valid()
      ensures metricCache.log == old(metricCache.log) + Indexed(CallsBefore(|dataset|, 0, |dataset|))
      ensures WithinData(Pairs(|dataset|), dataset)
      ensures metricCache.cache
                == Completed(old(metricCache.cache), Pairs(|dataset|), dataset, metricCache.metric)
      ensures metricCache.evaluations
                == old(metricCache.evaluations) + |metricCache.cache| - |old(metricCache.cache)|
      ensures |dataset| == 0 ==> metricCache.cache == old(metricCache.cache)
    {
      var n := |dataset|;
      if n == 0 {
        assert Pairs(n) == {} by {
          forall k | k in Pairs(n) ensures false { PairsMembership(n, k); }
        }
        assert Completed(metricCache.cache, Pairs(n), dataset, metricCache.metric) == metricCache.cache;
        assert Indexed(CallsBefore(n, 0, n)) == [];
        return;
      }
      ghost var c0 := metricCache.cache;
      ghost var log0 := metricCache.log;
      assert Indexed(CallsBefore(0, 0, n)) == [];
      for i := 0 to n
        invariant metricCache.Valid()
        invariant CompletedUpTo(metricCache.cache, c0, dataset, metricCache.metric, i, 0)
        invariant metricCache.evaluations == old(metricCache.evaluations) + |metricCache.cache| - |c0|
        invariant metricCache.log == log0 + Indexed(CallsBefore(i, 0, n))
      {
        RunLogNext(log0, i, n);
        VisitRow(i, c0, old(metricCache.evaluations));
      }
      AllVisited(metricCache.cache, c0, dataset, metricCache.metric);
    }

    /** The inner loop of `Run` for outer index `i`: it asks the cache for
        `(i, j)` for every other position `j`, in order. */
    method VisitRow(i: nat, ghost c0: Cache, ghost e0: int)
      requires i < |dataset| && metricCache.Valid()
      requires CompletedUpTo(metricCache.cache, c0, dataset, metricCache.metric, i, 0)
      requires metricCache.evaluations == e0 + |metricCache.cache| - |c0|
      modifies metricCache
      ensures metricCache.Valid()
      ensures CompletedUpTo(metricCache.cache, c0, dataset, metricCache.metric, i + 1, 0)
      ensures metricCache.evaluations == e0 + |metricCache.cache| - |c0|
      ensures metricCache.log == old(metricCache.log) + RowLog(i, |dataset|)
    {
      var n := |dataset|;
      ghost var log0 := metricCache.log;
      assert RowLog(i, 0) == [];
      for j := 0 to n
        invariant metricCache.Valid()
        invariant CompletedUpTo(metricCache.cache, c0, dataset, metricCache.metric, i, j)
        invariant metricCache.evaluations == e0 + |metricCache.cache| - |c0|
        invariant metricCache.log == log0 + RowLog(i, j)
      {
        if i == j {
          RowLogSkip(log0, i);
          DiagonalStep(metricCache.cache, c0, dataset, metricCache.metric, i);
        } else {
          VisitPair(i, j, c0, e0, log0);
        }
      }
      RowDone(metricCache.cache, c0, dataset, metricCache.metric, i);
    }

    /** The body of the inner loop for `i != j`: one indexed call to the
        cache, which advances the loop position by one and consults the
        base metric exactly when it adds a key. */
    method VisitPair(i: nat, j: nat, ghost c0: Cache, ghost e0: int, ghost log0: seq<Call>)
      requires i < |dataset| && j < |dataset| && i != j && metricCache.Valid()
      requires CompletedUpTo(metricCache.cache, c0, dataset, metricCache.metric, i, j)
      requires metricCache.evaluations == e0 + |metricCache.cache| - |c0|
      requires metricCache.log == log0 + RowLog(i, j)
      modifies metricCache
      ensures metricCache.Valid()
      ensures CompletedUpTo(metricCache.cache, c0, dataset, metricCache.metric, i, j + 1)
      ensures metricCache.evaluations == e0 + |metricCache.cache| - |c0|
      ensures j < i ==> metricCache.cache == old(metricCache.cache)
      ensures metricCache.log == old(metricCache.log) + [CallOf((i, j))]
      ensures metricCache.log == log0 + RowLog(i, j + 1)
    {
      RowLogNext(log0, i, j);
      InnerStep(metricCache.cache, c0, dataset, metricCache.metric, i, j);
      IndexedGrowth(metricCache.metric, metricCache.cache, dataset[i], dataset[j], i, j);
      var _ := metricCache.Calculate(dataset[i], dataset[j], Some(i), Some(j));
    }
  }
}
