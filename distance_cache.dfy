/** The memoizing metric: a dictionary from an index pair to the distance
    its base metric computed for the images at those indices.

    `ComputeOrFetch` is the value-level specification of one call of
    `CachedMetric.Calculate`; the class method is proved to do exactly what
    it says, and the lemmas below state what repeated and reordered calls
    do. */
module DistanceCache {
  import opened Metrics

  /** A cache key: a pair of dataset indices. */
  type Key = (int, int)

  /** The cache's contents. */
  type Cache = map<Key, Distance>

  /** The canonical key of an index pair: smaller index first. */
  function KeyOf(i: int, j: int): (k: Key)
    ensures k.0 <= k.1
    ensures (k.0 == i && k.1 == j) || (k.0 == j && k.1 == i)
  {
    (if i <= j then i else j, if i <= j then j else i)
  }

  /** Every stored key is in canonical order. */
  ghost predicate Canonical(cache: Cache) {
    forall k :: k in cache ==> k.0 <= k.1
  }

  /** What one call produces: the distance returned, the cache afterwards,
      and whether the base metric was consulted. */
  datatype Fetch = Fetch(distance: Distance, cache: Cache, evaluated: bool)

  /** One call of `Calculate(img1, img2, idx1, idx2)` on a cache, stated on values. */
  function ComputeOrFetch<Img>(metric: Metric<Img>, cache: Cache, img1: Img, img2: Img,
                               idx1: Option<int>, idx2: Option<int>): (r: Fetch)
    // without both indices the cache is bypassed
    ensures (idx1.None? || idx2.None?) ==>
              r.distance == metric(img1, img2) && r.cache == cache && r.evaluated
    // with both: a hit returns the stored value and consults nothing
    ensures idx1.Some? && idx2.Some? && KeyOf(idx1.value, idx2.value) in cache ==>
              r.distance == cache[KeyOf(idx1.value, idx2.value)] && r.cache == cache && !r.evaluated
    // a miss computes, stores the value under the canonical key, and returns it
    ensures idx1.Some? && idx2.Some? && KeyOf(idx1.value, idx2.value) !in cache ==>
              r.distance == metric(img1, img2) && r.evaluated &&
              r.cache.Keys == cache.Keys + {KeyOf(idx1.value, idx2.value)}
    // afterwards an indexed call finds its own answer under its key
    ensures idx1.Some? && idx2.Some? ==>
              KeyOf(idx1.value, idx2.value) in r.cache &&
              r.cache[KeyOf(idx1.value, idx2.value)] == r.distance
    // no entry is removed or overwritten
    ensures forall k :: k in cache ==> k in r.cache && r.cache[k] == cache[k]
    ensures Canonical(cache) ==> Canonical(r.cache)
  {
    if idx1.Some? && idx2.Some? then
      var key := KeyOf(idx1.value, idx2.value);
      if key in cache then Fetch(cache[key], cache, false)
      else
        var d := metric(img1, img2);
        Fetch(d, cache[key := d], true)
    else
      Fetch(metric(img1, img2), cache, true)
  }

  /** The order of the two indices does not matter for the key. */
  lemma KeySymmetric(i: int, j: int)
    ensures KeyOf(i, j) == KeyOf(j, i)
  {
  }

  /** Swapping both the images and the indices of a call gives the same
      cache and, for a symmetric base metric, the same distance. */
  lemma ArgumentOrder<Img(!new)>(metric: Metric<Img>, cache: Cache, a: Img, b: Img, i: int, j: int)
    ensures var r1 := ComputeOrFetch(metric, cache, a, b, Some(i), Some(j));
            var r2 := ComputeOrFetch(metric, cache, b, a, Some(j), Some(i));
            r1.cache.Keys == r2.cache.Keys && r1.evaluated == r2.evaluated &&
            (Symmetric(metric) ==> r1 == r2)
  {
    KeySymmetric(i, j);
  }

  /** Repeating an indexed call, in either index order and with any images,
      returns the first answer, does not change the cache and does not
      consult the base metric. */
  lemma Idempotent<Img>(metric: Metric<Img>, cache: Cache, a: Img, b: Img, a': Img, b': Img,
                        i: int, j: int, swap: bool)
    ensures var r1 := ComputeOrFetch(metric, cache, a, b, Some(i), Some(j));
            var r2 := ComputeOrFetch(metric, r1.cache, a', b',
                                     Some(if swap then j else i), Some(if swap then i else j));
            r2.distance == r1.distance && r2.cache == r1.cache && !r2.evaluated
  {
    KeySymmetric(i, j);
  }

  /** An indexed call grows the cache by one entry exactly when it
      consults the base metric. */
  lemma IndexedGrowth<Img>(metric: Metric<Img>, cache: Cache, a: Img, b: Img, i: int, j: int)
    ensures var r := ComputeOrFetch(metric, cache, a, b, Some(i), Some(j));
            |r.cache| == |cache| + (if r.evaluated then 1 else 0)
  {
  }

  /** The memoizing metric.  `evaluations` counts the calls made into the
      base metric; it does not exist in the source. */
  /** The index arguments of one `Calculate` call. */
  type Call = (Option<int>, Option<int>)

  class CachedMetric<Img> {
    const metric: Metric<Img>
    var cache: Cache
    ghost var evaluations: nat
    ghost var log: seq<Call>

    ghost predicate Valid()
      reads this
    {
      Canonical(cache)
    }

    /** `CachedMetric(metric)`: an empty cache in front of `metric`. */
    constructor (metric: Metric<Img>)
      ensures Valid()
      ensures this.metric == metric && cache == map[] && evaluations == 0 && log == []
    {
      this.metric := metric;
      cache := map[];
      evaluations := 0;
      log := [];
    }

    /** Computes or retrieves the distance of `img1` and `img2`; the
        indices, when both are given, key the cache.  Every call is
        appended to `log`. */
    method Calculate(img1: Img, img2: Img, idx1: Option<int>, idx2: Option<int>)
      returns (distance: Distance)
      requires Valid()
      modifies this
      ensures Valid()
      ensures var r := ComputeOrFetch(metric, old(cache), img1, img2, idx1, idx2);
              distance == r.distance && cache == r.cache &&
              evaluations == old(evaluations) + (if r.evaluated then 1 else 0)
    ensures log == old(log) + [(idx1, idx2)]
    {
      log := log + [(idx1, idx2)];
      var key: Key := (0, 0);
      if idx1.Some? && idx2.Some? {
        key := KeyOf(idx1.value, idx2.value);
        if key in cache {
          return cache[key];
        }
      }
      distance := metric(img1, img2);
      evaluations := evaluations + 1;
      if idx1.Some? && idx2.Some? {
        cache := cache[key := distance];
      }
    }
  }
}
