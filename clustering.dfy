/**
 * Label plumbing of the two-stage clustering (py/clustering_model.py): a
 * density model marks outliers (-1), a partitioner labels the remaining
 * points, and the two label sequences are merged back position by
 * position. The library fits themselves are supplied as functions.
 */
module Clustering {
  import opened Util

  type Point = seq<real>

  const Outlier := -1

  // ---------------------------------------------------------------------
  // Nearest core point
  // ---------------------------------------------------------------------

  function Sq(x: real): (y: real)
    ensures y >= 0.0
  {
    x * x
  }

  /**
   * Squared Euclidean distance: with eps > 0, a distance is below eps
   * exactly when its square is below eps * eps, so comparing squares picks
   * the same nearest point and the same outliers.
   */
  function SqDist(a: Point, b: Point): (d: real)
    requires |a| == |b|
    ensures d >= 0.0
  {
    if |a| == 0 then 0.0
    else
      var n := |a| - 1;
      SqDist(a[..n], b[..n]) + Sq(a[n] - b[n])
  }

  /** All points have the given number of coordinates. */
  predicate HasDim(points: seq<Point>, dim: nat)
  {
    forall k :: 0 <= k < |points| ==> |points[k]| == dim
  }

  /**
   * A fitted density model: the distance threshold and, for each core
   * component, the index of its sample in the training labels.
   */
  datatype DensityModel = DensityModel(
    eps: real,
    labels: seq<int>,
    coreSampleIndices: seq<nat>,
    components: seq<Point>)

  /** What a density fit guarantees: a positive threshold, core samples that are never outliers. */
  ghost predicate ValidDensity(m: DensityModel)
  {
    && m.eps > 0.0
    && |m.coreSampleIndices| == |m.components|
    && (forall k :: 0 <= k < |m.coreSampleIndices| ==>
          m.coreSampleIndices[k] < |m.labels| && m.labels[m.coreSampleIndices[k]] >= 0)
  }

  /** The distance from p to each core component. */
  function Distances(components: seq<Point>, p: Point): (ds: seq<real>)
    requires HasDim(components, |p|)
    ensures |ds| == |components|
    ensures forall k :: 0 <= k < |ds| ==> ds[k] == SqDist(components[k], p)
  {
    seq(|components|, k requires 0 <= k < |components| => SqDist(components[k], p))
  }

  /** `np.argmin`: the first position holding the least value. */
  function ArgMin(ds: seq<real>): (k: nat)
    requires |ds| > 0
    ensures k < |ds|
    ensures forall i :: 0 <= i < |ds| ==> ds[k] <= ds[i]
    ensures forall i :: 0 <= i < k ==> ds[k] < ds[i]
  {
    var n := |ds| - 1;
    if n == 0 then 0
    else
      var k := ArgMin(ds[..n]);
      assert forall i :: 0 <= i < n ==> ds[..n][i] == ds[i];
      if ds[n] < ds[k] then n else k
  }

  /** The density model can label p: it has core components of p's dimension. */
  ghost predicate Predictable(m: DensityModel, p: Point)
  {
    ValidDensity(m) && |m.components| > 0 && HasDim(m.components, |p|)
  }

  /**
   * The label `dbscan_predict` gives one point: that of the nearest core
   * component when it lies strictly within eps, else the outlier label.
   */
  function PredictPoint(m: DensityModel, p: Point): (l: int)
    requires ValidDensity(m) && |m.components| > 0 && HasDim(m.components, |p|)
    ensures l == Outlier || exists k :: 0 <= k < |m.components| && l == m.labels[m.coreSampleIndices[k]]
    ensures l >= Outlier
  {
    var ds := Distances(m.components, p);
    var k := ArgMin(ds);
    if ds[k] < Sq(m.eps) then m.labels[m.coreSampleIndices[k]] else Outlier
  }

  /** A point is an outlier exactly when no core component lies strictly within eps. */
  lemma PredictPointOutlier(m: DensityModel, p: Point)
    requires ValidDensity(m) && |m.components| > 0 && HasDim(m.components, |p|)
    ensures PredictPoint(m, p) == Outlier <==>
      forall k :: 0 <= k < |m.components| ==> SqDist(m.components[k], p) >= Sq(m.eps)
  {
    var ds := Distances(m.components, p);
    var k := ArgMin(ds);
    assert ds[k] == SqDist(m.components[k], p);
  }

  /**
   * Otherwise its label is that of the first core component at the least
   * distance.
   */
  lemma PredictPointNearest(m: DensityModel, p: Point)
    requires ValidDensity(m) && |m.components| > 0 && HasDim(m.components, |p|)
    requires PredictPoint(m, p) != Outlier
    ensures exists k :: NearestCore(m, p, k)
  {
    var cs := m.components;
    var ds := Distances(cs, p);
    var k := ArgMin(ds);
    assert ds[k] == SqDist(cs[k], p) < Sq(m.eps);
    assert forall i :: 0 <= i < |cs| ==> SqDist(cs[k], p) <= SqDist(cs[i], p) by {
      forall i | 0 <= i < |cs| ensures SqDist(cs[k], p) <= SqDist(cs[i], p) {
        assert ds[i] == SqDist(cs[i], p);
      }
    }
    assert forall i :: 0 <= i < k ==> SqDist(cs[k], p) < SqDist(cs[i], p) by {
      forall i | 0 <= i < k ensures SqDist(cs[k], p) < SqDist(cs[i], p) {
        assert ds[i] == SqDist(cs[i], p);
      }
    }
    assert NearestCore(m, p, k);
  }

  /**
   * Core component k lies strictly within eps of p, no other is closer, every
   * earlier one is farther, and p gets k's label.
   */
  ghost predicate NearestCore(m: DensityModel, p: Point, k: int)
    requires ValidDensity(m) && |m.components| > 0 && HasDim(m.components, |p|)
  {
    && 0 <= k < |m.components|
    && SqDist(m.components[k], p) < Sq(m.eps)
    && (forall i :: 0 <= i < |m.components| ==> SqDist(m.components[k], p) <= SqDist(m.components[i], p))
    && (forall i :: 0 <= i < k ==> SqDist(m.components[k], p) < SqDist(m.components[i], p))
    && PredictPoint(m, p) == m.labels[m.coreSampleIndices[k]]
  }

  /** The labels the density model gives a sequence of points, one per point. */
  function DensityLabels(m: DensityModel, points: seq<Point>): (labels: seq<int>)
    requires ValidDensity(m)
    requires |points| > 0 ==> |m.components| > 0
    requires forall i :: 0 <= i < |points| ==> HasDim(m.components, |points[i]|)
    ensures |labels| == |points|
    ensures forall i :: 0 <= i < |points| ==> labels[i] == PredictPoint(m, points[i])
  {
    seq(|points|, i requires 0 <= i < |points| => PredictPoint(m, points[i]))
  }

  /**
   * `dbscan_predict`: starts every point as an outlier and overwrites the
   * label of each point that has a core component within eps.
   */
  method DbscanPredict(m: DensityModel, points: seq<Point>) returns (labels: seq<int>)
    requires ValidDensity(m)
    requires |points| > 0 ==> |m.components| > 0
    requires forall i :: 0 <= i < |points| ==> HasDim(m.components, |points[i]|)
    ensures labels == DensityLabels(m, points)
  {
    var buffer := new int[|points|](_ => Outlier);
    for i := 0 to |points|
      invariant forall j :: 0 <= j < i ==> buffer[j] == PredictPoint(m, points[j])
      invariant forall j :: i <= j < |points| ==> buffer[j] == Outlier
    {
      var ds := Distances(m.components, points[i]);
      var nearest := ArgMin(ds);
      if ds[nearest] < Sq(m.eps) {
        buffer[i] := m.labels[m.coreSampleIndices[nearest]];
      }
    }
    labels := buffer[..];
    assert labels == DensityLabels(m, points);
  }

  // ---------------------------------------------------------------------
  // Outlier filtering and merging
  // ---------------------------------------------------------------------

  /** Which positions the density model did not mark as outliers. */
  function NonOutlierMask(labels: seq<int>): (mask: seq<bool>)
    ensures |mask| == |labels|
    ensures forall i :: 0 <= i < |labels| ==> mask[i] == (labels[i] != Outlier)
  {
    seq(|labels|, i requires 0 <= i < |labels| => labels[i] != Outlier)
  }

  /** The number of non-outliers. */
  function Inliers(labels: seq<int>): nat
  {
    Count(NonOutlierMask(labels))
  }

  /**
   * `_get_non_outliers`: the features and the weights at the positions whose
   * density label is not -1, in their original order.
   */
  function GetNonOutliers(features: seq<Point>, weights: seq<real>, dbscanLabels: seq<int>)
    : (r: (seq<Point>, seq<real>))
    requires |features| <= |dbscanLabels| && |weights| <= |dbscanLabels|
    ensures var fmask, wmask := NonOutlierMask(dbscanLabels[..|features|]), NonOutlierMask(dbscanLabels[..|weights|]);
      && |r.0| == Count(fmask) && |r.1| == Count(wmask)
      && (forall k :: 0 <= k < |r.0| ==>
            dbscanLabels[Positions(fmask)[k]] != Outlier && r.0[k] == features[Positions(fmask)[k]])
      && (forall k :: 0 <= k < |r.1| ==>
            dbscanLabels[Positions(wmask)[k]] != Outlier && r.1[k] == weights[Positions(wmask)[k]])
    ensures |features| == |dbscanLabels| ==> |r.0| == Inliers(dbscanLabels)
    ensures |weights| == |dbscanLabels| ==> |r.1| == Inliers(dbscanLabels)
  {
    assert dbscanLabels[..|dbscanLabels|] == dbscanLabels;
    (Filter(features, NonOutlierMask(dbscanLabels[..|features|])),
     Filter(weights, NonOutlierMask(dbscanLabels[..|weights|])))
  }

  /** Every non-outlier is kept: the i-th input non-outlier is the output at its rank. */
  lemma NonOutliersKept(features: seq<Point>, weights: seq<real>, dbscanLabels: seq<int>, i: nat)
    requires |features| == |weights| == |dbscanLabels|
    requires i < |dbscanLabels| && dbscanLabels[i] != Outlier
    ensures var r := GetNonOutliers(features, weights, dbscanLabels);
      var rank := Rank(NonOutlierMask(dbscanLabels), i);
      |r.0| == |r.1| == Inliers(dbscanLabels)
      && rank < |r.0| && r.0[rank] == features[i] && r.1[rank] == weights[i]
  {
    var mask := NonOutlierMask(dbscanLabels);
    assert dbscanLabels[..|features|] == dbscanLabels;
    PositionsRank(mask);
  }

  /**
   * The merged labels, position by position: -1 where the density model
   * found an outlier, otherwise the partition label of that point, which is
   * the one at the point's rank among the non-outliers.
   */
  function Merged(dbscanLabels: seq<int>, kmeansLabels: seq<int>): (r: seq<int>)
    requires |kmeansLabels| >= Inliers(dbscanLabels)
    ensures |r| == |dbscanLabels|
    ensures forall i :: 0 <= i < |r| && dbscanLabels[i] == Outlier ==> r[i] == Outlier
  {
    var mask := NonOutlierMask(dbscanLabels);
    PositionsRank(mask);
    seq(|dbscanLabels|, i requires 0 <= i < |dbscanLabels| =>
      if dbscanLabels[i] == Outlier then Outlier else kmeansLabels[Rank(mask, i)])
  }

  /** The j-th non-outlier receives the j-th partition label. */
  lemma MergedConsumesInOrder(dbscanLabels: seq<int>, kmeansLabels: seq<int>)
    requires |kmeansLabels| >= Inliers(dbscanLabels)
    ensures var mask := NonOutlierMask(dbscanLabels);
      forall j :: 0 <= j < Count(mask) ==> Merged(dbscanLabels, kmeansLabels)[Positions(mask)[j]] == kmeansLabels[j]
  {
    PositionsRank(NonOutlierMask(dbscanLabels));
  }

  /** Taking the non-outliers of the merged labels gives back the partition labels. */
  lemma FilterMerged(dbscanLabels: seq<int>, kmeansLabels: seq<int>)
    requires |kmeansLabels| == Inliers(dbscanLabels)
    ensures Filter(Merged(dbscanLabels, kmeansLabels), NonOutlierMask(dbscanLabels)) == kmeansLabels
  {
    MergedConsumesInOrder(dbscanLabels, kmeansLabels);
  }

  /** With no outliers, the merged labels are the partition labels. */
  lemma MergedNoOutliers(dbscanLabels: seq<int>, kmeansLabels: seq<int>)
    requires forall i :: 0 <= i < |dbscanLabels| ==> dbscanLabels[i] != Outlier
    requires |kmeansLabels| == |dbscanLabels|
    ensures Inliers(dbscanLabels) == |dbscanLabels|
    ensures Merged(dbscanLabels, kmeansLabels) == kmeansLabels
  {
    var mask := NonOutlierMask(dbscanLabels);
    CountAll(mask);
    FilterAll(Merged(dbscanLabels, kmeansLabels), mask);
    FilterMerged(dbscanLabels, kmeansLabels);
  }

  /** With only outliers, no partition label is consumed and all stay -1. */
  lemma MergedAllOutliers(dbscanLabels: seq<int>, kmeansLabels: seq<int>)
    requires forall i :: 0 <= i < |dbscanLabels| ==> dbscanLabels[i] == Outlier
    ensures Inliers(dbscanLabels) == 0
    ensures Merged(dbscanLabels, kmeansLabels) == dbscanLabels
  {
    FilterNone(dbscanLabels, NonOutlierMask(dbscanLabels));
  }

  /**
   * With partition labels in [0, k), every merged label is -1 or in [0, k),
   * and it is -1 exactly where the density label is.
   */
  lemma MergedRange(dbscanLabels: seq<int>, kmeansLabels: seq<int>, k: nat)
    requires |kmeansLabels| >= Inliers(dbscanLabels)
    requires forall j :: 0 <= j < |kmeansLabels| ==> 0 <= kmeansLabels[j] < k
    ensures forall i :: 0 <= i < |dbscanLabels| ==>
      Merged(dbscanLabels, kmeansLabels)[i] == Outlier || 0 <= Merged(dbscanLabels, kmeansLabels)[i] < k
    ensures forall i :: 0 <= i < |dbscanLabels| ==>
      (Merged(dbscanLabels, kmeansLabels)[i] == Outlier <==> dbscanLabels[i] == Outlier)
  {
    PositionsRank(NonOutlierMask(dbscanLabels));
  }

  /**
   * `_merge_labels`: walks the density labels, copying each -1 and
   * otherwise taking the next partition label.
   */
  method MergeLabels(dbscanLabels: seq<int>, kmeansLabels: seq<int>) returns (merged: seq<int>)
    requires |kmeansLabels| >= Inliers(dbscanLabels)
    ensures merged == Merged(dbscanLabels, kmeansLabels)
  {
    var mask := NonOutlierMask(dbscanLabels);
    ghost var expected := Merged(dbscanLabels, kmeansLabels);
    PositionsRank(mask);
    merged := [];
    var i := 0;
    for t := 0 to |dbscanLabels|
      invariant i == Rank(mask, t)
      invariant |merged| == t
      invariant forall j :: 0 <= j < t ==> merged[j] == expected[j]
    {
      RankStep(mask, t);
      if dbscanLabels[t] == Outlier {
        merged := merged + [Outlier];
      } else {
        merged := merged + [kmeansLabels[i]];
        i := i + 1;
      }
    }
  }

  // ---------------------------------------------------------------------
  // The two-stage model
  // ---------------------------------------------------------------------

  /** A fitted partitioner: how many clusters, and the labels it assigns to new points. */
  datatype Partitioner = Partitioner(clusters: nat, assign: (seq<Point>, seq<real>) -> seq<int>)

  /** One label per point, each in [0, clusters). */
  ghost predicate ValidPartitioner(p: Partitioner)
  {
    forall f, w :: |p.assign(f, w)| == |f| &&
      forall j :: 0 <= j < |p.assign(f, w)| ==> 0 <= p.assign(f, w)[j] < p.clusters
  }

  /** The result of a density fit: the model and the labels of the training points. */
  datatype DensityFit = DensityFit(model: DensityModel, labels: seq<int>)

  /** The result of a partition fit: the model and the labels of the training points. */
  datatype PartitionFit = PartitionFit(model: Partitioner, labels: seq<int>)

  /** The partitioner's settings: the cluster count, the number of restarts, the seed. */
  datatype PartitionConfig = PartitionConfig(clusters: nat, restarts: nat, seed: nat)

  const DefaultClusters := 16
  const Restarts := 100
  const Seed := 1337

  datatype ModelError =
    | NotFitted         // a stage's model is missing
    | ShapeMismatch     // features or weights do not line up
    | InvalidParameter  // eps, min_samples or the cluster count out of range
    | TooFewPoints      // no points to fit, or fewer inliers than clusters

  /** What the density fit promises for a positive threshold: a valid model and one label per point. */
  ghost predicate DensityFitter(fitDensity: (seq<Point>, seq<real>, real, nat) -> DensityFit)
  {
    forall f, w, e, s :: e > 0.0 ==>
      ValidDensity(fitDensity(f, w, e, s).model) && |fitDensity(f, w, e, s).labels| == |f|
  }

  /**
   * What the partition fit promises for at least one cluster: a valid
   * partitioner with that many clusters, and one label in range per point.
   */
  ghost predicate PartitionFitter(fitPartition: (seq<Point>, seq<real>, PartitionConfig) -> PartitionFit)
  {
    forall f, w, c: PartitionConfig :: c.clusters >= 1 ==>
      && ValidPartitioner(fitPartition(f, w, c).model)
      && fitPartition(f, w, c).model.clusters == c.clusters
      && |fitPartition(f, w, c).labels| == |f|
      && forall j :: 0 <= j < |f| ==> 0 <= fitPartition(f, w, c).labels[j] < c.clusters
  }

  /**
   * Both fitter contracts can be met: a density fit with no core samples
   * that marks every point an outlier, and a partition fit that puts every
   * point in cluster 0.
   */
  lemma FittersExist()
    ensures DensityFitter((f: seq<Point>, w: seq<real>, e: real, s: nat) =>
      DensityFit(DensityModel(e, [], [], []), seq(|f|, _ => Outlier)))
    ensures PartitionFitter((f: seq<Point>, w: seq<real>, c: PartitionConfig) =>
      PartitionFit(Partitioner(c.clusters, (g: seq<Point>, v: seq<real>) => seq(|g|, _ => 0)), seq(|f|, _ => 0)))
  {
  }

  /** `[1] * len(features)` when no weights are given. */
  function WeightsOrOnes(features: seq<Point>, weights: Option<seq<real>>): (w: seq<real>)
    ensures weights.None? ==> |w| == |features| && forall i :: 0 <= i < |w| ==> w[i] == 1.0
    ensures weights.Some? ==> w == weights.value
  {
    if weights.Some? then weights.value else seq(|features|, _ => 1.0)
  }

  /**
   * The filter, partition and merge steps of `predict` once both models are
   * fitted and the shapes agree: density labels, the partitioner's labels
   * for the non-outliers, and the merge of the two.
   */
  method PredictFitted(m: DensityModel, p: Partitioner, features: seq<Point>, w: seq<real>)
    returns (r: Result<seq<int>, ModelError>)
    requires ValidDensity(m) && ValidPartitioner(p)
    requires |features| > 0 && |m.components| > 0
    requires forall i :: 0 <= i < |features| ==> HasDim(m.components, |features[i]|)
    requires |w| == |features|
    ensures r.Err? ==> r == Err(TooFewPoints) && Inliers(DensityLabels(m, features)) == 0
    ensures r.Ok? ==> |r.value| == |features|
    ensures r.Ok? ==> forall i :: 0 <= i < |features| ==>
      (r.value[i] == Outlier <==> PredictPoint(m, features[i]) == Outlier)
    ensures r.Ok? ==> forall i :: 0 <= i < |features| ==>
      r.value[i] == Outlier || 0 <= r.value[i] < p.clusters
    ensures r.Ok? ==>
      var labels := DensityLabels(m, features);
      var inliers := GetNonOutliers(features, w, labels);
      && |inliers.0| > 0
      && |p.assign(inliers.0, inliers.1)| == Inliers(labels)
      && r.value == Merged(labels, p.assign(inliers.0, inliers.1))
  {
    var dbscanLabels := DbscanPredict(m, features);
    var inliers := GetNonOutliers(features, w, dbscanLabels);
    if |inliers.0| == 0 {
      return Err(TooFewPoints);
    }
    var kmeansLabels := p.assign(inliers.0, inliers.1);
    var merged := MergeLabels(dbscanLabels, kmeansLabels);
    MergedRange(dbscanLabels, kmeansLabels, p.clusters);
    return Ok(merged);
  }

  class ClusteringModel {
    var density: Option<DensityModel>
    var partition: Option<Partitioner>

    ghost predicate Valid()
      reads this
    {
      && (density.Some? ==> ValidDensity(density.value))
      && (partition.Some? ==> ValidPartitioner(partition.value))
    }

    constructor(density: Option<DensityModel>, partition: Option<Partitioner>)
      requires density.Some? ==> ValidDensity(density.value)
      requires partition.Some? ==> ValidPartitioner(partition.value)
      ensures this.density == density && this.partition == partition
      ensures Valid()
    {
      this.density := density;
      this.partition := partition;
    }

    /**
     * `predict`: outliers by the density model, partition labels for the
     * rest, merged back in position order.
     */
    method Predict(features: seq<Point>, weights: Option<seq<real>>) returns (r: Result<seq<int>, ModelError>)
      requires Valid()
      ensures |features| > 0 && density.None? ==> r == Err(NotFitted)
      ensures partition.None? ==> r.Err?
      ensures r.Ok? ==> density.Some? && partition.Some?
      ensures r.Ok? ==> |r.value| == |features|
      ensures r.Ok? ==> forall i :: 0 <= i < |features| ==>
        && Predictable(density.value, features[i])
        && (r.value[i] == Outlier <==> PredictPoint(density.value, features[i]) == Outlier)
      ensures r.Ok? ==> forall i :: 0 <= i < |features| ==>
        r.value[i] == Outlier || 0 <= r.value[i] < partition.value.clusters
      ensures r.Ok? ==> |WeightsOrOnes(features, weights)| == |features| && |features| > 0
      ensures r.Ok? ==> (|density.value.components| > 0
        && forall i :: 0 <= i < |features| ==> HasDim(density.value.components, |features[i]|))
      ensures r.Ok? ==>
        var labels := DensityLabels(density.value, features);
        var inliers := GetNonOutliers(features, WeightsOrOnes(features, weights), labels);
        && |inliers.0| > 0
        && |partition.value.assign(inliers.0, inliers.1)| == Inliers(labels)
        && r.value == Merged(labels, partition.value.assign(inliers.0, inliers.1))
      ensures r.Err? ==>
        || |features| == 0 || density.None? || partition.None?
        || |density.value.components| == 0
        || (exists i :: 0 <= i < |features| && !HasDim(density.value.components, |features[i]|))
        || |WeightsOrOnes(features, weights)| != |features|
        || Inliers(DensityLabels(density.value, features)) == 0
    {
      var w := WeightsOrOnes(features, weights);
      if |features| == 0 {
        // Nothing to label: the partitioner is asked about no points.
        return if partition.None? then Err(NotFitted) else Err(TooFewPoints);
      }
      if density.None? {
        return Err(NotFitted);
      }
      var m := density.value;
      if |m.components| == 0 || exists i :: 0 <= i < |features| && !HasDim(m.components, |features[i]|) {
        return Err(ShapeMismatch);
      }
      if |w| != |features| {
        return Err(ShapeMismatch);
      }
      if partition.None? {
        return Err(NotFitted);
      }
      r := PredictFitted(m, partition.value, features, w);
    }

    /**
     * `fit`: fits the density model, then the partitioner with one cluster
     * fewer than asked on the non-outliers, and returns the merged training
     * labels. Each stage's model is replaced as the stage starts, so a
     * failing stage leaves it unfitted.
     */
    method Fit(
      features: seq<Point>, weights: Option<seq<real>>, numClusters: int, eps: real, minSamples: int,
      fitDensity: (seq<Point>, seq<real>, real, nat) -> DensityFit,
      fitPartition: (seq<Point>, seq<real>, PartitionConfig) -> PartitionFit)
      returns (r: Result<seq<int>, ModelError>)
      requires Valid()
      requires DensityFitter(fitDensity)
      requires PartitionFitter(fitPartition)
      modifies this
      ensures Valid()
      ensures r.Ok? ==> density.Some? && partition.Some? && numClusters >= 2
      ensures r.Ok? ==> partition.value.clusters == numClusters - 1
      ensures r.Ok? ==> |r.value| == |features|
      ensures r.Ok? ==> forall i :: 0 <= i < |features| ==>
        r.value[i] == Outlier || 0 <= r.value[i] <= numClusters - 2
      ensures eps <= 0.0 || minSamples < 1 ==> r == Err(InvalidParameter) && density.None?
      ensures r.Ok? ==> eps > 0.0 && minSamples >= 1 && |WeightsOrOnes(features, weights)| == |features|
      ensures r.Ok? ==>
        var w := WeightsOrOnes(features, weights);
        var densityFit := fitDensity(features, w, eps, minSamples as nat);
        var inliers := GetNonOutliers(features, w, densityFit.labels);
        var partitionFit := fitPartition(inliers.0, inliers.1, PartitionConfig(numClusters - 1, Restarts, Seed));
        && density == Some(densityFit.model)
        && partition == Some(partitionFit.model)
        && |partitionFit.labels| == Inliers(densityFit.labels)
        && r.value == Merged(densityFit.labels, partitionFit.labels)
      ensures r.Err? ==>
        || eps <= 0.0 || minSamples < 1 || numClusters < 2 || |features| == 0
        || |WeightsOrOnes(features, weights)| != |features|
        || Inliers(fitDensity(features, WeightsOrOnes(features, weights), eps, minSamples as nat).labels) < numClusters - 1
      ensures (eps <= 0.0 || minSamples < 1 || |features| == 0 || |WeightsOrOnes(features, weights)| != |features|) ==>
        r.Err? && density.None? && partition == old(partition)
      ensures (&& eps > 0.0 && minSamples >= 1 && |features| > 0
               && |WeightsOrOnes(features, weights)| == |features| && r.Err?) ==>
        density == Some(fitDensity(features, WeightsOrOnes(features, weights), eps, minSamples as nat).model)
        && partition.None?
    {
      var w := WeightsOrOnes(features, weights);
      density := None;
      if eps <= 0.0 || minSamples < 1 {
        return Err(InvalidParameter);
      }
      if |features| == 0 {
        return Err(TooFewPoints);
      }
      if |w| != |features| {
        return Err(ShapeMismatch);
      }
      var fitted := fitDensity(features, w, eps, minSamples);
      density := Some(fitted.model);
      var dbscanLabels := fitted.labels;
      var inliers := GetNonOutliers(features, w, dbscanLabels);
      partition := None;
      if numClusters < 2 {
        return Err(InvalidParameter);
      }
      var config := PartitionConfig(numClusters - 1, Restarts, Seed);
      if |inliers.0| < config.clusters {
        return Err(TooFewPoints);
      }
      var partitioned := fitPartition(inliers.0, inliers.1, config);
      partition := Some(partitioned.model);
      assert dbscanLabels[..|features|] == dbscanLabels;
      var merged := MergeLabels(dbscanLabels, partitioned.labels);
      MergedRange(dbscanLabels, partitioned.labels, config.clusters);
      return Ok(merged);
    }
  }
}
