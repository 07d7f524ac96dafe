/** K-medoid clustering over a dataset of images.

    An image is named by its position in `data`: the source compares
    medoids by object identity (`id`), and every entry of its data list is
    its own object, so identity is position.  A medoid list is a list of
    positions; the clusters of one assign step are a list parallel to it,
    `clusters[c]` holding the members of the cluster of `medoids[c]` (the
    source's dictionary keyed by medoid, in its insertion order). */
module KMedoid {
  import opened Metrics

  /** Number of clusters. */
  const K: nat := 3
  /** Largest number of assign/update iterations of one run. */
  const ClassifIters: nat := 10

  datatype Error =
    | EmptySequence               // `min` of an empty sequence raises ValueError
    | SampleLargerThanPopulation  // `random.sample` of more items than there are

  datatype Result<T> = Ok(value: T) | Err(error: Error)

  /** No position occurs twice. */
  ghost predicate Distinct(s: seq<nat>) {
    forall p, q :: 0 <= p < q < |s| ==> s[p] != s[q]
  }

  /** Every entry is a position of a dataset of `n` items. */
  ghost predicate Within(s: seq<nat>, n: nat) {
    forall p :: 0 <= p < |s| ==> s[p] < n
  }

  /** Strictly increasing: members in data order, none twice. */
  ghost predicate Increasing(s: seq<nat>) {
    forall p, q :: 0 <= p < q < |s| ==> s[p] < s[q]
  }

  /** The set of identities of a medoid list, `set(map(id, medoids))`. */
  function Identities(s: seq<nat>): (ids: set<nat>)
    ensures forall x :: x in ids <==> x in s
  {
    set x | x in s
  }

  /** A medoid list has at most as many identities as entries, and exactly
      as many when its entries are distinct. */
  lemma {:induction false} IdentitiesCount(s: seq<nat>)
    ensures |Identities(s)| <= |s|
    ensures Distinct(s) ==> |Identities(s)| == |s|
    decreases |s|
  {
    if s != [] {
      var prefix := s[..|s| - 1];
      assert s == prefix + [s[|s| - 1]];
      assert Identities(s) == Identities(prefix) + {s[|s| - 1]};
      IdentitiesCount(prefix);
    }
  }

  // ---------------------------------------------------------------- min --

  /** Python's `min(xs, key=...)` seen through the keys: the position of the
      first least key (a later key replaces the current one only when it is
      strictly smaller). */
  function FirstMin(keys: seq<real>): (r: nat)
    requires |keys| > 0
    ensures r < |keys|
    ensures forall q :: 0 <= q < |keys| ==> keys[r] <= keys[q]
    ensures forall q :: 0 <= q < r ==> keys[r] < keys[q]
    decreases |keys|
  {
    if |keys| == 1 then 0
    else
      var r := FirstMin(keys[..|keys| - 1]);
      if keys[|keys| - 1] < keys[r] then |keys| - 1 else r
  }

  /** The two properties of `FirstMin` single out one position. */
  lemma FirstMinUnique(keys: seq<real>, r: nat)
    requires r < |keys|
    requires forall q :: 0 <= q < |keys| ==> keys[r] <= keys[q]
    requires forall q :: 0 <= q < r ==> keys[r] < keys[q]
    ensures FirstMin(keys) == r
  {
  }

  // -------------------------------------------------------- assign step --

  /** The slot of the medoid closest to item `x`:
      `min(medoids, key=lambda medoid: metric.Calculate(img, medoid))`. */
  function Closest<Img>(data: seq<Img>, metric: Metric<Img>, medoids: seq<nat>, x: nat): (c: nat)
    requires x < |data| && Within(medoids, |data|) && |medoids| > 0
    ensures c < |medoids|
    ensures forall d :: 0 <= d < |medoids| ==>
              metric(data[x], data[medoids[c]]) <= metric(data[x], data[medoids[d]])
    ensures forall d :: 0 <= d < c ==>
              metric(data[x], data[medoids[c]]) < metric(data[x], data[medoids[d]])
  {
    var keys := seq(|medoids|, d requires 0 <= d < |medoids| => metric(data[x], data[medoids[d]]) as real);
    assert forall d :: 0 <= d < |medoids| ==> keys[d] == metric(data[x], data[medoids[d]]);
    FirstMin(keys)
  }

  /** The slot of every item's closest medoid, item by item. */
  function Owners<Img>(data: seq<Img>, metric: Metric<Img>, medoids: seq<nat>): (owners: seq<nat>)
    requires Within(medoids, |data|) && (|data| > 0 ==> |medoids| > 0)
    ensures |owners| == |data|
    ensures forall x :: 0 <= x < |data| ==> owners[x] == Closest(data, metric, medoids, x)
  {
    seq(|data|, x requires 0 <= x < |data| => Closest(data, metric, medoids, x))
  }

  /** The items before `upto`, in data order, owned by slot `c`. */
  function Members(owners: seq<nat>, c: nat, upto: nat): seq<nat>
    requires upto <= |owners|
    decreases upto
  {
    if upto == 0 then []
    else Members(owners, c, upto - 1) + (if owners[upto - 1] == c then [upto - 1] else [])
  }

  /** The `k` clusters after the assign loop has placed the items before `upto`. */
  function Assignment(owners: seq<nat>, k: nat, upto: nat): seq<seq<nat>>
    requires upto <= |owners|
  {
    seq(k, c requires 0 <= c < k => Members(owners, c, upto))
  }

  /** The assign step: every item goes to the cluster of its closest
      medoid; with items but no medoid, `min` fails. */
  function Assign<Img>(data: seq<Img>, metric: Metric<Img>, medoids: seq<nat>): (r: Result<seq<seq<nat>>>)
    requires Distinct(medoids) && Within(medoids, |data|)
    ensures r.Err? <==> |data| > 0 && |medoids| == 0
    ensures r.Err? ==> r.error == EmptySequence
    ensures r.Ok? ==> |r.value| == |medoids|
  {
    if |data| > 0 && |medoids| == 0 then Err(EmptySequence)
    else Ok(Assignment(Owners(data, metric, medoids), |medoids|, |data|))
  }

  /** Total number of members of a list of clusters. */
  function SumLengths(clusters: seq<seq<nat>>): nat {
    if clusters == [] then 0 else |clusters[0]| + SumLengths(clusters[1..])
  }

  /** Appending one member to one cluster adds one to the total. */
  lemma {:induction false} SumLengthsAppend(clusters: seq<seq<nat>>, c: nat, x: nat)
    requires c < |clusters|
    ensures SumLengths(clusters[c := clusters[c] + [x]]) == SumLengths(clusters) + 1
  {
    var after := clusters[c := clusters[c] + [x]];
    if c > 0 {
      assert after[1..] == clusters[1..][c - 1 := clusters[c] + [x]];
      SumLengthsAppend(clusters[1..], c - 1, x);
    } else {
      assert after[1..] == clusters[1..];
    }
  }

  /** Clusters that are all empty hold no member. */
  lemma {:induction false} EmptyClustersSum(clusters: seq<seq<nat>>)
    requires forall c :: 0 <= c < |clusters| ==> |clusters[c]| == 0
    ensures SumLengths(clusters) == 0
  {
    if clusters != [] {
      EmptyClustersSum(clusters[1..]);
    }
  }

  /** The members of slot `c` are exactly the items before `upto` it owns,
      in increasing data order. */
  lemma {:induction false} MembersExactly(owners: seq<nat>, c: nat, upto: nat)
    requires upto <= |owners|
    ensures forall x: nat :: x in Members(owners, c, upto) <==> x < upto && owners[x] == c
    ensures Increasing(Members(owners, c, upto))
    decreases upto
  {
    if upto > 0 {
      MembersExactly(owners, c, upto - 1);
      var before := Members(owners, c, upto - 1);
      var after := Members(owners, c, upto);
      forall p, q | 0 <= p < q < |after| ensures after[p] < after[q] {
        if q >= |before| {
          assert before[p] in before;
        }
      }
    }
  }

  /** Placing item `upto` appends it to its owner's cluster only. */
  lemma AssignmentStep(owners: seq<nat>, k: nat, upto: nat)
    requires upto < |owners| && owners[upto] < k
    ensures var before := Assignment(owners, k, upto);
            Assignment(owners, k, upto + 1) == before[owners[upto] := before[owners[upto]] + [upto]]
  {
    var before := Assignment(owners, k, upto);
    var after := Assignment(owners, k, upto + 1);
    forall c | 0 <= c < k ensures after[c] == before[owners[upto] := before[owners[upto]] + [upto]][c] {
    }
  }

  /** The cluster sizes sum to the number of items placed. */
  lemma {:induction false} AssignmentSize(owners: seq<nat>, k: nat, upto: nat)
    requires upto <= |owners| && forall x :: 0 <= x < |owners| ==> owners[x] < k
    ensures SumLengths(Assignment(owners, k, upto)) == upto
    decreases upto
  {
    if upto == 0 {
      EmptyClustersSum(Assignment(owners, k, 0));
    } else {
      AssignmentSize(owners, k, upto - 1);
      AssignmentStep(owners, k, upto - 1);
      SumLengthsAppend(Assignment(owners, k, upto - 1), owners[upto - 1], upto - 1);
    }
  }

  /** The assign step partitions the items: one cluster per medoid, each
      item in exactly the cluster of its closest medoid, members in data
      order, sizes summing to the number of items.  It fails exactly when
      there are items but no medoid. */
  lemma AssignPartition<Img>(data: seq<Img>, metric: Metric<Img>, medoids: seq<nat>)
    requires Distinct(medoids) && Within(medoids, |data|)
    ensures Assign(data, metric, medoids).Err? <==> |data| > 0 && |medoids| == 0
    ensures var r := Assign(data, metric, medoids);
            r.Ok? ==>
              && |r.value| == |medoids|
              && SumLengths(r.value) == |data|
              && ClustersWithin(r.value, |data|)
              && (forall c, x: nat :: 0 <= c < |medoids| ==>
                    (x in r.value[c] <==> x < |data| && Closest(data, metric, medoids, x) == c))
              && (forall c :: 0 <= c < |medoids| ==> Increasing(r.value[c]))
  {
    if !(|data| > 0 && |medoids| == 0) {
      var owners := Owners(data, metric, medoids);
      var clusters := Assign(data, metric, medoids).value;
      AssignmentSize(owners, |medoids|, |data|);
      forall c | 0 <= c < |medoids|
        ensures forall x: nat :: x in clusters[c] <==> x < |data| && owners[x] == c
        ensures Increasing(clusters[c])
        ensures Within(clusters[c], |data|)
      {
        MembersExactly(owners, c, |data|);
        forall p | 0 <= p < |clusters[c]| ensures clusters[c][p] < |data| {
          assert clusters[c][p] in clusters[c];
        }
      }
    }
  }

  /** The assign loop: `clusters[closest_medoid].append(img)` for each image in turn. */
  method AssignStep<Img>(data: seq<Img>, metric: Metric<Img>, medoids: seq<nat>)
    returns (r: Result<seq<seq<nat>>>)
    requires Distinct(medoids) && Within(medoids, |data|)
    ensures r == Assign(data, metric, medoids)
  {
    var clusters: seq<seq<nat>> := seq(|medoids|, _ => []);
    if |medoids| == 0 && |data| > 0 {
      // the first `min` over the empty medoid list raises
      return Err(EmptySequence);
    }
    ghost var owners := Owners(data, metric, medoids);
    for x := 0 to |data|
      invariant clusters == Assignment(owners, |medoids|, x)
    {
      var c := Closest(data, metric, medoids, x);
      AssignmentStep(owners, |medoids|, x);
      clusters := clusters[c := clusters[c] + [x]];
    }
    return Ok(clusters);
  }

  // -------------------------------------------------------- update step --

  /** `sum(metric.Calculate(img, other) for other in cluster)`. */
  function SumDist<Img>(data: seq<Img>, metric: Metric<Img>, x: nat, others: seq<nat>): (s: real)
    requires x < |data| && Within(others, |data|)
    ensures 0.0 <= s
    decreases |others|
  {
    if others == [] then 0.0
    else SumDist(data, metric, x, others[..|others| - 1]) + metric(data[x], data[others[|others| - 1]])
  }

  /** The most central member of a non-empty cluster:
      `min(cluster, key=lambda img: sum(...))`, the first least sum. */
  function Central<Img>(data: seq<Img>, metric: Metric<Img>, cluster: seq<nat>): (m: nat)
    requires |cluster| > 0 && Within(cluster, |data|)
    ensures m in cluster
    ensures forall q :: 0 <= q < |cluster| ==>
              SumDist(data, metric, m, cluster) <= SumDist(data, metric, cluster[q], cluster)
    ensures exists p :: 0 <= p < |cluster| && cluster[p] == m &&
              forall q :: 0 <= q < p ==> SumDist(data, metric, m, cluster) < SumDist(data, metric, cluster[q], cluster)
  {
    var keys := seq(|cluster|, q requires 0 <= q < |cluster| => SumDist(data, metric, cluster[q], cluster));
    assert forall q :: 0 <= q < |cluster| ==> keys[q] == SumDist(data, metric, cluster[q], cluster);
    var p := FirstMin(keys);
    cluster[p]
  }

  /** Every cluster holds positions of the dataset. */
  ghost predicate ClustersWithin(clusters: seq<seq<nat>>, n: nat) {
    forall c :: 0 <= c < |clusters| ==> Within(clusters[c], n)
  }

  /** The update step: one new medoid per cluster, in cluster order; an
      empty cluster makes `min` fail. */
  function Update<Img>(data: seq<Img>, metric: Metric<Img>, clusters: seq<seq<nat>>): (r: Result<seq<nat>>)
    requires ClustersWithin(clusters, |data|)
    ensures r.Err? <==> exists c :: 0 <= c < |clusters| && clusters[c] == []
    ensures r.Ok? ==> |r.value| == |clusters| &&
                      forall c :: 0 <= c < |clusters| ==> r.value[c] in clusters[c]
    ensures r.Ok? ==> forall c :: 0 <= c < |clusters| ==> r.value[c] == Central(data, metric, clusters[c])
  {
    if exists c :: 0 <= c < |clusters| && clusters[c] == [] then Err(EmptySequence)
    else Ok(seq(|clusters|, c requires 0 <= c < |clusters| => Central(data, metric, clusters[c])))
  }

  /** The update loop: `new_medoids.append(new_medoid)` for each cluster in turn. */
  method UpdateStep<Img>(data: seq<Img>, metric: Metric<Img>, clusters: seq<seq<nat>>)
    returns (r: Result<seq<nat>>)
    requires ClustersWithin(clusters, |data|)
    ensures r == Update(data, metric, clusters)
  {
    var newMedoids: seq<nat> := [];
    for c := 0 to |clusters|
      invariant forall d :: 0 <= d < c ==> clusters[d] != []
      invariant |newMedoids| == c
      invariant forall d :: 0 <= d < c ==> newMedoids[d] == Central(data, metric, clusters[d])
    {
      if clusters[c] == [] {
        return Err(EmptySequence);
      }
      newMedoids := newMedoids + [Central(data, metric, clusters[c])];
    }
    assert !exists d :: 0 <= d < |clusters| && clusters[d] == [];
    assert newMedoids == seq(|clusters|, c requires 0 <= c < |clusters| => Central(data, metric, clusters[c]));
    return Ok(newMedoids);
  }

  // ---------------------------------------------------------- iteration --

  /** One assign step followed by one update step. */
  function Step<Img>(data: seq<Img>, metric: Metric<Img>, medoids: seq<nat>): (r: Result<seq<nat>>)
    requires Distinct(medoids) && Within(medoids, |data|)
    ensures r.Ok? ==> |r.value| == |medoids| && Within(r.value, |data|)
  {
    match Assign(data, metric, medoids)
    case Err(e) => Err(e)
    case Ok(clusters) =>
      AssignPartition(data, metric, medoids);
      Update(data, metric, clusters)
  }

  /** A step that succeeds picks each cluster's new medoid from within that
      cluster: the new medoid of slot `c` has slot `c` as its closest medoid. */
  lemma StepInOwnCluster<Img>(data: seq<Img>, metric: Metric<Img>, medoids: seq<nat>)
    requires Distinct(medoids) && Within(medoids, |data|)
    ensures var r := Step(data, metric, medoids);
            r.Ok? ==> forall c :: 0 <= c < |medoids| ==> Closest(data, metric, medoids, r.value[c]) == c
  {
    var r := Step(data, metric, medoids);
    if r.Ok? {
      AssignPartition(data, metric, medoids);
      var clusters := Assign(data, metric, medoids).value;
      forall c | 0 <= c < |medoids|
        ensures Closest(data, metric, medoids, r.value[c]) == c
      {
        assert r.value[c] in clusters[c];
      }
    }
  }

  /** The new medoids of a step are distinct positions, one per old medoid. */
  lemma StepDistinct<Img>(data: seq<Img>, metric: Metric<Img>, medoids: seq<nat>)
    requires Distinct(medoids) && Within(medoids, |data|)
    ensures var r := Step(data, metric, medoids);
            r.Ok? ==> Distinct(r.value)
  {
    StepInOwnCluster(data, metric, medoids);
  }

  /** Each medoid strictly nearer to itself than to any other medoid (a
      true metric over distinct images is so). */
  ghost predicate SelfNearest<Img>(data: seq<Img>, metric: Metric<Img>, medoids: seq<nat>)
    requires Within(medoids, |data|)
  {
    forall c, d :: 0 <= c < |medoids| && 0 <= d < |medoids| && c != d ==>
      metric(data[medoids[c]], data[medoids[c]]) < metric(data[medoids[c]], data[medoids[d]])
  }

  /** When every medoid is nearest to itself, each medoid lands in its own
      cluster, no cluster is empty and the step cannot fail. */
  lemma NoEmptyCluster<Img>(data: seq<Img>, metric: Metric<Img>, medoids: seq<nat>)
    requires Distinct(medoids) && Within(medoids, |data|) && |medoids| > 0
    requires SelfNearest(data, metric, medoids)
    ensures Step(data, metric, medoids).Ok?
  {
    AssignPartition(data, metric, medoids);
    var clusters := Assign(data, metric, medoids).value;
    forall c | 0 <= c < |medoids| ensures clusters[c] != []
    {
      var m := medoids[c];
      var d := Closest(data, metric, medoids, m);
      if d != c {
        assert false;
      }
      assert m in clusters[c];
    }
  }

  /** A step is its assign step followed by the update of its clusters. */
  lemma StepParts<Img>(data: seq<Img>, metric: Metric<Img>, medoids: seq<nat>)
    requires Distinct(medoids) && Within(medoids, |data|)
    ensures var a := Assign(data, metric, medoids);
            && (a.Err? ==> Step(data, metric, medoids) == Err(a.error))
            && (a.Ok? ==> ClustersWithin(a.value, |data|) &&
                          Step(data, metric, medoids) == Update(data, metric, a.value))
  {
    AssignPartition(data, metric, medoids);
  }

  /** The body of the run loop: the assign loop, then the update loop;
      either fails when `min` meets an empty sequence.  The new medoids are
      distinct positions, one per old medoid. */
  method AssignAndUpdate<Img>(data: seq<Img>, metric: Metric<Img>, medoids: seq<nat>)
    returns (r: Result<seq<nat>>)
    requires Distinct(medoids) && Within(medoids, |data|)
    ensures r == Step(data, metric, medoids)
    ensures r.Ok? ==> |r.value| == |medoids| && Distinct(r.value) && Within(r.value, |data|)
  {
    StepParts(data, metric, medoids);
    StepDistinct(data, metric, medoids);
    var clusters := AssignStep(data, metric, medoids);
    if clusters.Err? {
      return Err(clusters.error);
    }
    r := UpdateStep(data, metric, clusters.value);
  }

  /** How a run ends. */
  datatype Status =
    | NothingToDo    // empty dataset: return at once
    | Converged      // the new medoids' identities equal the old ones'
    | Exhausted      // `ClassifIters` iterations without convergence
    | Failed(error: Error)

  /** The end of a run: its status, the medoids left, the iterations begun. */
  datatype Outcome = Outcome(status: Status, medoids: seq<nat>, iterations: nat)

  /** An outcome reached after `done` earlier iterations. */
  function Later(o: Outcome, done: nat): Outcome {
    o.(iterations := o.iterations + done)
  }

  /** A clustering step as a value: from a medoid list to the next one. */
  type Stepper = seq<nat> -> Result<seq<nat>>

  /** The step of a dataset and metric, for medoid lists of that dataset. */
  ghost function StepOf<Img>(data: seq<Img>, metric: Metric<Img>): (step: Stepper)
    ensures forall medoids :: Distinct(medoids) && Within(medoids, |data|) ==>
              step(medoids) == Step(data, metric, medoids)
  {
    medoids =>
      if Distinct(medoids) && Within(medoids, |data|) then Step(data, metric, medoids)
      else Err(EmptySequence)
  }

  /** At most `fuel` iterations of the run loop from `medoids`: stop when a
      step fails or yields medoids with the same identities, else go on
      from the new medoids. */
  function Iterate(step: Stepper, medoids: seq<nat>, fuel: nat): (o: Outcome)
    ensures o.iterations <= fuel
    ensures o.status == Exhausted ==> o.iterations == fuel
    ensures o.status != NothingToDo
    decreases fuel
  {
    if fuel == 0 then Outcome(Exhausted, medoids, 0)
    else
      match step(medoids)
      case Err(e) => Outcome(Failed(e), medoids, 1)
      case Ok(next) =>
        if Identities(next) == Identities(medoids) then Outcome(Converged, medoids, 1)
        else Later(Iterate(step, next, fuel - 1), 1)
  }

  /** Where a run stands after `done` iterations, with `fuel` left, once
      one more step from `medoids` has given `r`. */
  lemma Advance(step: Stepper, goal: Outcome, medoids: seq<nat>, fuel: nat, done: nat)
    requires fuel > 0 && goal == Later(Iterate(step, medoids, fuel), done)
    ensures step(medoids).Err? ==> goal == Outcome(Failed(step(medoids).error), medoids, done + 1)
    ensures step(medoids).Ok? && Identities(step(medoids).value) == Identities(medoids) ==>
              goal == Outcome(Converged, medoids, done + 1)
    ensures step(medoids).Ok? && Identities(step(medoids).value) != Identities(medoids) ==>
              goal == Later(Iterate(step, step(medoids).value, fuel - 1), done + 1)
  {
  }

  /** A run ends either with the medoids it started from or with those of
      the run that goes on from the first step's medoids. */
  lemma IterateMedoids(step: Stepper, medoids: seq<nat>, fuel: nat)
    requires fuel > 0
    ensures var o := Iterate(step, medoids, fuel);
            o.medoids == medoids ||
            (step(medoids).Ok? && o.medoids == Iterate(step, step(medoids).value, fuel - 1).medoids)
  {
  }

  /** Medoid lists of `k` distinct positions of a dataset of `n` items; also
      what a draw of `random.sample(data, k)` gives. */
  ghost predicate Proper(medoids: seq<nat>, n: nat, k: nat) {
    |medoids| == k && Distinct(medoids) && Within(medoids, n)
  }

  /** A successful step of a dataset's clustering keeps medoid lists proper. */
  lemma StepKeepsProper<Img>(data: seq<Img>, metric: Metric<Img>, k: nat)
    ensures forall medoids :: Proper(medoids, |data|, k) && StepOf(data, metric)(medoids).Ok? ==>
              Proper(StepOf(data, metric)(medoids).value, |data|, k)
  {
    forall medoids | Proper(medoids, |data|, k) && StepOf(data, metric)(medoids).Ok?
      ensures Proper(StepOf(data, metric)(medoids).value, |data|, k)
    {
      StepDistinct(data, metric, medoids);
    }
  }

  /** A run from proper medoids with a step that keeps them proper ends
      with proper medoids: one per original medoid, all distinct. */
  lemma {:induction false} IterateKeepsProper(step: Stepper, medoids: seq<nat>, fuel: nat, n: nat, k: nat)
    requires Proper(medoids, n, k)
    requires forall m :: Proper(m, n, k) && step(m).Ok? ==> Proper(step(m).value, n, k)
    ensures Proper(Iterate(step, medoids, fuel).medoids, n, k)
    decreases fuel
  {
    if fuel > 0 {
      var r := step(medoids);
      IterateMedoids(step, medoids, fuel);
      if r.Ok? {
        IterateKeepsProper(step, r.value, fuel - 1, n, k);
      }
    }
  }

  /** Why a run stopped: when it converged, one more step from the medoids
      left gives medoids with the same identities; when it failed, the step
      from the medoids left fails in the same way. */
  lemma {:induction false} IterateStops(step: Stepper, medoids: seq<nat>, fuel: nat)
    ensures var o := Iterate(step, medoids, fuel);
            && (o.status == Converged ==>
                  step(o.medoids).Ok? && Identities(step(o.medoids).value) == Identities(o.medoids))
            && (o.status.Failed? ==> step(o.medoids) == Err(o.status.error))
    decreases fuel
  {
    if fuel > 0 {
      var r := step(medoids);
      if r.Ok? && Identities(r.value) != Identities(medoids) {
        IterateStops(step, r.value, fuel - 1);
      }
    }
  }

  // ------------------------------------------------------------ routine --

  /** The clustering routine over a loaded dataset. */
  class KMedoidRoutine<Img> {
    const data: seq<Img>
    const metric: Metric<Img>
    var medoids: seq<nat>

    /** The medoids are distinct positions of `data`. */
    ghost predicate Valid()
      reads this
    {
      Distinct(medoids) && Within(medoids, |data|)
    }

    /** `KMedoidRoutine(dataset, metric)` once the initial medoids are drawn. */
    constructor (dataset: seq<Img>, metric: Metric<Img>, initial: seq<nat>)
      requires Distinct(initial) && Within(initial, |dataset|)
      ensures Valid()
      ensures data == dataset && this.metric == metric && medoids == initial
    {
      data := dataset;
      this.metric := metric;
      medoids := initial;
    }

    /** `KMedoidRoutine(dataset, metric)`: `K` initial medoids taken from the
        caller's `draw` of the dataset; it fails exactly when `K` exceeds
        the dataset. */
    static method New(dataset: seq<Img>, metric: Metric<Img>, draw: seq<nat>)
      returns (r: Result<KMedoidRoutine<Img>>)
      requires K <= |dataset| ==> Proper(draw, |dataset|, K)
      ensures r.Err? <==> K > |dataset|
      ensures r.Err? ==> r.error == SampleLargerThanPopulation
      ensures r.Ok? ==> fresh(r.value) && r.value.Valid() && |r.value.medoids| == K
      ensures r.Ok? ==> r.value.data == dataset && r.value.metric == metric && r.value.medoids == draw
    {
      if K > |dataset| {
        return Err(SampleLargerThanPopulation);
      }
      var routine := new KMedoidRoutine(dataset, metric, draw);
      return Ok(routine);
    }

    /** The clustering loop.  With no data it returns at once; otherwise it
        does what `Iterate` describes for `ClassifIters` iterations: the
        medoids are replaced after each iteration that does not converge. */
    method Run() returns (status: Status, iterations: nat)
      requires Valid()
      modifies this
      ensures Valid() && |medoids| == |old(medoids)|
      ensures |data| == 0 ==> status == NothingToDo && iterations == 0 && medoids == old(medoids)
      ensures |data| > 0 ==>
                Iterate(StepOf(data, metric), old(medoids), ClassifIters) == Outcome(status, medoids, iterations)
    {
      if |data| == 0 {
        return NothingToDo, 0;
      }
      ghost var step := StepOf(data, metric);
      ghost var goal := Iterate(step, medoids, ClassifIters);
      for iteration := 0 to ClassifIters
        invariant Valid() && |medoids| == |old(medoids)|
        invariant goal == Later(Iterate(step, medoids, ClassifIters - iteration), iteration)
      {
        var newMedoids := AssignAndUpdate(data, metric, medoids);
        Advance(step, goal, medoids, ClassifIters - iteration, iteration);
        if newMedoids.Err? {
          return Failed(newMedoids.error), iteration + 1;
        }
        if Identities(newMedoids.value) == Identities(medoids) {
          return Converged, iteration + 1;
        }
        medoids := newMedoids.value;
      }
      return Exhausted, ClassifIters;
    }

    /** The clusters of the current medoids, without changing them. */
    method GetClusters() returns (r: Result<seq<seq<nat>>>)
      requires Valid()
      ensures r == Assign(data, metric, medoids)
    {
      r := AssignStep(data, metric, medoids);
    }
  }
}
