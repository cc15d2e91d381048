/**
 * Cluster summaries (py/data_utils.py, `collapse_features` and
 * `collapse_clusters`, with no attenuation and no brightening): each
 * cluster's feature rows are collapsed column by column into one row, the
 * call-rate columns normalised so that they share out one unit between
 * them.
 */
module Collapse {
  import opened Util
  import opened Tally
  import opened DataUtils

  // ---------------------------------------------------------------------
  // Columns, sums and maxima
  // ---------------------------------------------------------------------

  /** Column j of a table whose rows all have more than j entries. */
  function Column(rows: seq<seq<real>>, j: nat): (col: seq<real>)
    requires forall i :: 0 <= i < |rows| ==> j < |rows[i]|
    ensures |col| == |rows|
    ensures forall i :: 0 <= i < |rows| ==> col[i] == rows[i][j]
  {
    seq(|rows|, i requires 0 <= i < |rows| => rows[i][j])
  }

  /** `max(xs)`: the largest entry, which some position attains. */
  function Max(xs: seq<real>): (m: real)
    requires |xs| > 0
    ensures forall i :: 0 <= i < |xs| ==> xs[i] <= m
    ensures exists i :: 0 <= i < |xs| && xs[i] == m
  {
    var n := |xs| - 1;
    if n == 0 then xs[0]
    else
      var m := Max(xs[..n]);
      assert forall i :: 0 <= i < n ==> xs[..n][i] == xs[i];
      if xs[n] > m then xs[n] else m
  }

  /** `sum(xs)`. */
  function Sum(xs: seq<real>): real
  {
    if |xs| == 0 then 0.0 else Sum(xs[..|xs| - 1]) + xs[|xs| - 1]
  }

  /** `[n * w for (n, w) in zip(col, weights)]`. */
  function Weighted(col: seq<real>, weights: seq<real>): (r: seq<real>)
    requires |col| == |weights|
    ensures |r| == |col|
    ensures forall i :: 0 <= i < |col| ==> r[i] == col[i] * weights[i]
  {
    seq(|col|, i requires 0 <= i < |col| => col[i] * weights[i])
  }

  /** A sum of non-negative entries is at least each entry. */
  lemma {:induction false} SumBoundsEntries(xs: seq<real>)
    requires forall i :: 0 <= i < |xs| ==> xs[i] >= 0.0
    ensures Sum(xs) >= 0.0
    ensures forall i :: 0 <= i < |xs| ==> xs[i] <= Sum(xs)
  {
    if |xs| > 0 {
      var n := |xs| - 1;
      assert forall i :: 0 <= i < n ==> xs[..n][i] == xs[i];
      SumBoundsEntries(xs[..n]);
    }
  }

  /** Each entry divided by a common denominator. */
  function Divided(xs: seq<real>, t: real): (r: seq<real>)
    requires t != 0.0
    ensures |r| == |xs|
    ensures forall i :: 0 <= i < |xs| ==> r[i] == xs[i] / t
  {
    seq(|xs|, i requires 0 <= i < |xs| => xs[i] / t)
  }

  /** Dividing every entry by t divides the sum by t. */
  lemma {:induction false} SumDivided(xs: seq<real>, t: real)
    requires t != 0.0
    ensures Sum(Divided(xs, t)) == Sum(xs) / t
  {
    if |xs| > 0 {
      var n := |xs| - 1;
      SumDivided(xs[..n], t);
      assert Divided(xs, t)[..n] == Divided(xs[..n], t);
      DivideSum(Sum(xs[..n]), xs[n], t);
    }
  }

  /** Summing bounded entries with positive weights. */
  lemma {:induction false} WeightedSumBounds(col: seq<real>, weights: seq<real>, lo: real, hi: real)
    requires |col| == |weights|
    requires forall i :: 0 <= i < |col| ==> lo <= col[i] <= hi && weights[i] > 0.0
    ensures lo * Sum(weights) <= Sum(Weighted(col, weights)) <= hi * Sum(weights)
  {
    if |col| > 0 {
      var n := |col| - 1;
      WeightedSumBounds(col[..n], weights[..n], lo, hi);
      WeightedSumBoundsStep(col, weights, lo, hi);
    }
  }

  lemma WeightedSumBoundsStep(col: seq<real>, weights: seq<real>, lo: real, hi: real)
    requires |col| == |weights| > 0
    requires lo <= col[|col| - 1] <= hi && weights[|col| - 1] > 0.0
    requires var n := |col| - 1;
      lo * Sum(weights[..n]) <= Sum(Weighted(col[..n], weights[..n])) <= hi * Sum(weights[..n])
    ensures lo * Sum(weights) <= Sum(Weighted(col, weights)) <= hi * Sum(weights)
  {
    var n := |col| - 1;
    var a, b := Sum(Weighted(col[..n], weights[..n])), Sum(weights[..n]);
    WeightedPrefix(col, weights, n);
    assert Sum(Weighted(col, weights)) == a + col[n] * weights[n];
    assert Sum(weights) == b + weights[n];
    WeightedSumStep(a, b, col[n], weights[n], lo, hi);
  }

  lemma WeightedPrefix(col: seq<real>, weights: seq<real>, n: nat)
    requires |col| == |weights| && n <= |col|
    ensures Weighted(col, weights)[..n] == Weighted(col[..n], weights[..n])
  {
    forall i | 0 <= i < n ensures Weighted(col, weights)[..n][i] == Weighted(col[..n], weights[..n])[i] {
      assert col[..n][i] == col[i] && weights[..n][i] == weights[i];
    }
  }

  /** Adding one bounded, positively weighted entry keeps the bounds. */
  lemma WeightedSumStep(a: real, b: real, x: real, w: real, lo: real, hi: real)
    requires lo * b <= a <= hi * b
    requires lo <= x <= hi && w > 0.0
    ensures lo * (b + w) <= a + x * w <= hi * (b + w)
  {
    ScaledBounds(lo, x, hi, w);
    assert lo * (b + w) == lo * b + lo * w;
    assert hi * (b + w) == hi * b + hi * w;
  }

  lemma ScaledBounds(lo: real, x: real, hi: real, w: real)
    requires lo <= x <= hi && w > 0.0
    ensures lo * w <= x * w <= hi * w
  {
  }

  lemma {:induction false} SumPositive(weights: seq<real>)
    requires |weights| > 0
    requires forall i :: 0 <= i < |weights| ==> weights[i] > 0.0
    ensures Sum(weights) > 0.0
  {
    var n := |weights| - 1;
    if n > 0 {
      SumPositive(weights[..n]);
    }
  }

  /** `sum(n * w) / sum(w)`: the weighted mean of a column. */
  function WeightedMean(col: seq<real>, weights: seq<real>): real
    requires |col| == |weights| > 0
    requires forall i :: 0 <= i < |weights| ==> weights[i] > 0.0
  {
    SumPositive(weights);
    Sum(Weighted(col, weights)) / Sum(weights)
  }

  /** The weighted mean lies between the column's least and largest entries. */
  lemma WeightedMeanBounds(col: seq<real>, weights: seq<real>, lo: real, hi: real)
    requires |col| == |weights| > 0
    requires forall i :: 0 <= i < |weights| ==> weights[i] > 0.0
    requires forall i :: 0 <= i < |col| ==> lo <= col[i] <= hi
    ensures lo <= WeightedMean(col, weights) <= hi
  {
    WeightedSumBounds(col, weights, lo, hi);
    SumPositive(weights);
    QuotientBetween(Sum(Weighted(col, weights)), Sum(weights), lo, hi);
  }

  lemma QuotientBetween(s: real, t: real, lo: real, hi: real)
    requires t > 0.0 && lo * t <= s <= hi * t
    ensures lo <= s / t <= hi
  {
    var q := s / t;
    assert q * t == s;
    assert q < lo ==> q * t < lo * t;
    assert q > hi ==> q * t > hi * t;
  }

  // ---------------------------------------------------------------------
  // One cluster
  // ---------------------------------------------------------------------

  /** The rows and weights of a cluster as `collapse_clusters` passes them. */
  ghost predicate ClusterShape(rows: seq<seq<real>>, weights: seq<real>)
  {
    && |rows| == |weights|
    && (forall i :: 0 <= i < |rows| ==> |rows[i]| == |Features|)
    && (forall i :: 0 <= i < |weights| ==> weights[i] > 0.0)
    && (forall i, j :: 0 <= i < |rows| && 0 <= j < |CallMethods| ==> rows[i][j] >= 0.0)
  }

  /** The largest weighted entry of call-rate column j. */
  function WeightedMax(rows: seq<seq<real>>, weights: seq<real>, j: nat): (m: real)
    requires ClusterShape(rows, weights) && |rows| > 0 && j < |CallMethods|
    ensures m >= 0.0
  {
    var w := Weighted(Column(rows, j), weights);
    assert w[0] >= 0.0;
    Max(w)
  }

  /** The weighted maxima of the call-rate columns. */
  function CallColumnMaxima(rows: seq<seq<real>>, weights: seq<real>): (r: seq<real>)
    requires ClusterShape(rows, weights) && |rows| > 0
    ensures |r| == |CallMethods|
    ensures forall j :: 0 <= j < |CallMethods| ==> r[j] == WeightedMax(rows, weights, j)
  {
    seq(|CallMethods|, j requires 0 <= j < |CallMethods| => WeightedMax(rows, weights, j))
  }

  /** `calls_sum_max`: the sum of the call-rate columns' weighted maxima. */
  function CallsSumMax(rows: seq<seq<real>>, weights: seq<real>): (s: real)
    requires ClusterShape(rows, weights) && |rows| > 0
    ensures s >= 0.0
    ensures forall j :: 0 <= j < |CallMethods| ==> WeightedMax(rows, weights, j) <= s
  {
    SumBoundsEntries(CallColumnMaxima(rows, weights));
    Sum(CallColumnMaxima(rows, weights))
  }

  /** A call-rate column with a positive entry has a positive weighted maximum. */
  lemma PositiveColumn(rows: seq<seq<real>>, weights: seq<real>, j: nat)
    requires ClusterShape(rows, weights) && |rows| > 0 && j < |CallMethods|
    requires Max(Column(rows, j)) > 0.0
    ensures WeightedMax(rows, weights, j) > 0.0
  {
    var col := Column(rows, j);
    var i :| 0 <= i < |col| && col[i] == Max(col);
    var w := Weighted(col, weights);
    ProductPositive(col[i], weights[i]);
    assert w[i] > 0.0;
    assert w[i] <= Max(w);
  }

  lemma ProductPositive(x: real, y: real)
    requires x > 0.0 && y > 0.0
    ensures x * y > 0.0
  {
  }

  /** A call-rate column with no positive entry is all zero, and so is its weighted maximum. */
  lemma ZeroColumn(rows: seq<seq<real>>, weights: seq<real>, j: nat)
    requires ClusterShape(rows, weights) && |rows| > 0 && j < |CallMethods|
    requires Max(Column(rows, j)) <= 0.0
    ensures forall i :: 0 <= i < |rows| ==> rows[i][j] == 0.0
    ensures WeightedMax(rows, weights, j) == 0.0
  {
    var w := Weighted(Column(rows, j), weights);
    assert forall i :: 0 <= i < |w| ==> w[i] == 0.0;
  }

  /**
   * `collapse_column`: the largest unique-senders value; the sum of order
   * or fill totals; for a call rate, 0 when the column has no positive
   * entry and otherwise its weighted maximum as a share of `calls_sum_max`;
   * the weighted mean for anything else.
   */
  function CollapseColumn(col: seq<real>, weights: seq<real>, feature: string, callsSumMax: real): real
    requires |col| == |weights| > 0
    requires forall i :: 0 <= i < |weights| ==> weights[i] > 0.0
    requires IsCallRateName(feature) && Max(col) > 0.0 ==> callsSumMax > 0.0
  {
    if feature == UniqueSenders then Max(col)
    else if feature == "total_orders" then Sum(col)
    else if feature == "total_fills" then Sum(col)
    else if IsCallRateName(feature) then
      if Max(col) > 0.0 then Max(Weighted(col, weights)) / callsSumMax else 0.0
    else WeightedMean(col, weights)
  }

  /**
   * One column's rule for the two bounded kinds: `unique_senders` takes the
   * largest entry, and a call rate with no positive entry gives 0.
   */
  lemma CollapseColumnRule(col: seq<real>, weights: seq<real>, feature: string, callsSumMax: real)
    requires |col| == |weights| > 0
    requires forall i :: 0 <= i < |weights| ==> weights[i] > 0.0
    requires IsCallRateName(feature) && Max(col) > 0.0 ==> callsSumMax > 0.0
    ensures feature == UniqueSenders ==>
      var r := CollapseColumn(col, weights, feature, callsSumMax);
      (forall i :: 0 <= i < |col| ==> col[i] <= r) && exists i :: 0 <= i < |col| && col[i] == r
    ensures IsCallRateName(feature) && Max(col) <= 0.0 ==> CollapseColumn(col, weights, feature, callsSumMax) == 0.0
  {
    if IsCallRateName(feature) {
      assert feature[0] == CallPrefix[0];
    }
  }

  /** Any other column is averaged by weight, so it stays within any bounds of its entries. */
  lemma CollapseColumnMean(col: seq<real>, weights: seq<real>, feature: string, callsSumMax: real, lo: real, hi: real)
    requires |col| == |weights| > 0
    requires forall i :: 0 <= i < |weights| ==> weights[i] > 0.0
    requires feature != UniqueSenders && feature != "total_orders" && feature != "total_fills"
    requires !IsCallRateName(feature)
    requires forall i :: 0 <= i < |col| ==> lo <= col[i] <= hi
    ensures lo <= CollapseColumn(col, weights, feature, callsSumMax) <= hi
  {
    WeightedMeanBounds(col, weights, lo, hi);
  }

  /** A call-rate feature name is none of the specially treated names. */
  lemma CallRateFeature(rows: seq<seq<real>>, j: nat)
    requires j < |CallMethods|
    ensures IsCallRateName(Features[j]) && Features[j] != UniqueSenders
    ensures Features[j] != "total_orders" && Features[j] != "total_fills"
  {
    FeaturesShape();
    assert Features[j] == CallPrefix + CallMethods[j];
    assert Features[j][0] == 'c';
  }

  /** Every call-rate column with a positive entry makes `calls_sum_max` positive. */
  lemma CallsSumMaxCovers(rows: seq<seq<real>>, weights: seq<real>)
    requires ClusterShape(rows, weights) && |rows| > 0
    ensures forall j :: 0 <= j < |Features| && IsCallRateName(Features[j]) && Max(Column(rows, j)) > 0.0 ==>
      CallsSumMax(rows, weights) > 0.0
  {
    FeaturesShape();
    forall j | 0 <= j < |Features| && IsCallRateName(Features[j]) && Max(Column(rows, j)) > 0.0
      ensures CallsSumMax(rows, weights) > 0.0
    {
      PositiveColumn(rows, weights, j);
    }
  }

  /** Each column collapsed by its feature's rule. */
  function CollapseRow(rows: seq<seq<real>>, weights: seq<real>): (r: seq<real>)
    requires ClusterShape(rows, weights) && |rows| > 0
    ensures |r| == |Features|
  {
    var s := CallsSumMax(rows, weights);
    CallsSumMaxCovers(rows, weights);
    seq(|Features|, j requires 0 <= j < |Features| => CollapseColumn(Column(rows, j), weights, Features[j], s))
  }

  /** A call-rate entry: 0 for a column with no positive entry, else its share of `calls_sum_max`. */
  lemma CollapseRowCallRate(rows: seq<seq<real>>, weights: seq<real>, j: nat)
    requires ClusterShape(rows, weights) && |rows| > 0 && j < |CallMethods|
    ensures Max(Column(rows, j)) <= 0.0 ==> CollapseRow(rows, weights)[j] == 0.0
    ensures Max(Column(rows, j)) > 0.0 ==>
      (CallsSumMax(rows, weights) > 0.0
       && CollapseRow(rows, weights)[j] == WeightedMax(rows, weights, j) / CallsSumMax(rows, weights))
  {
    CallRateFeature(rows, j);
    if Max(Column(rows, j)) > 0.0 {
      PositiveColumn(rows, weights, j);
    }
  }

  /** The unique-senders entry is the column's largest value. */
  lemma CollapseRowSenders(rows: seq<seq<real>>, weights: seq<real>)
    requires ClusterShape(rows, weights) && |rows| > 0
    ensures CollapseRow(rows, weights)[|CallMethods|] == Max(Column(rows, |CallMethods|))
  {
    FeaturesShape();
  }

  /**
   * `collapse_features`: one row per cluster, each column collapsed by its
   * feature's rule; an empty cluster gives an empty row.
   */
  function CollapseFeatures(rows: seq<seq<real>>, weights: seq<real>): (r: seq<real>)
    requires ClusterShape(rows, weights)
    ensures |rows| == 0 ==> r == []
    ensures |rows| > 0 ==> |r| == |Features|
    ensures |rows| > 0 ==> r[|CallMethods|] == Max(Column(rows, |CallMethods|))
    ensures |rows| > 0 ==> forall j :: 0 <= j < |CallMethods| ==> 0.0 <= r[j] <= 1.0
    ensures |rows| > 0 ==> forall j :: 0 <= j < |CallMethods| && Max(Column(rows, j)) <= 0.0 ==> r[j] == 0.0
  {
    if |rows| == 0 then []
    else
      var r := CollapseRow(rows, weights);
      CollapseRowSenders(rows, weights);
      assert forall j :: 0 <= j < |CallMethods| ==>
        (0.0 <= r[j] <= 1.0 && (Max(Column(rows, j)) <= 0.0 ==> r[j] == 0.0)) by {
        forall j | 0 <= j < |CallMethods|
          ensures 0.0 <= r[j] <= 1.0 && (Max(Column(rows, j)) <= 0.0 ==> r[j] == 0.0)
        {
          CollapseRowCallRate(rows, weights, j);
          if Max(Column(rows, j)) > 0.0 {
            UnitQuotient(WeightedMax(rows, weights, j), CallsSumMax(rows, weights));
          }
        }
      }
      r
  }

  /** Each call-rate entry of a collapsed row is its column's weighted maximum as a share of the total. */
  lemma CallRateShares(rows: seq<seq<real>>, weights: seq<real>)
    requires ClusterShape(rows, weights) && |rows| > 0
    requires CallsSumMax(rows, weights) > 0.0
    ensures CollapseFeatures(rows, weights)[..|CallMethods|]
         == Divided(CallColumnMaxima(rows, weights), CallsSumMax(rows, weights))
  {
    var r := CollapseRow(rows, weights);
    var d := Divided(CallColumnMaxima(rows, weights), CallsSumMax(rows, weights));
    assert CollapseFeatures(rows, weights) == r;
    forall j | 0 <= j < |CallMethods| ensures r[j] == d[j] {
      CallRateShare(rows, weights, j);
    }
    assert r[..|CallMethods|] == d;
  }

  /** One call-rate entry as a share of a positive `calls_sum_max`. */
  lemma CallRateShare(rows: seq<seq<real>>, weights: seq<real>, j: nat)
    requires ClusterShape(rows, weights) && |rows| > 0 && j < |CallMethods|
    requires CallsSumMax(rows, weights) > 0.0
    ensures CollapseRow(rows, weights)[j] == WeightedMax(rows, weights, j) / CallsSumMax(rows, weights)
  {
    CollapseRowCallRate(rows, weights, j);
    if Max(Column(rows, j)) <= 0.0 {
      ZeroColumn(rows, weights, j);
      ZeroQuotient(CallsSumMax(rows, weights));
    }
  }

  lemma ZeroQuotient(s: real)
    requires s != 0.0
    ensures 0.0 / s == 0.0
  {
  }

  /**
   * When any member called a listed method, the call-rate entries of the
   * collapsed row share out exactly one unit.
   */
  lemma CallRatesSumToOne(rows: seq<seq<real>>, weights: seq<real>, i: nat, j: nat)
    requires ClusterShape(rows, weights)
    requires i < |rows| && j < |CallMethods| && rows[i][j] > 0.0
    ensures Sum(CollapseFeatures(rows, weights)[..|CallMethods|]) == 1.0
  {
    var s := CallsSumMax(rows, weights);
    assert Column(rows, j)[i] > 0.0;
    PositiveColumn(rows, weights, j);
    CallRateShares(rows, weights);
    SumDivided(CallColumnMaxima(rows, weights), s);
    SelfQuotient(s);
  }

  lemma SelfQuotient(s: real)
    requires s != 0.0
    ensures s / s == 1.0
  {
  }

  /** When no member called a listed method, every call-rate entry is zero. */
  lemma NoCallsNoRates(rows: seq<seq<real>>, weights: seq<real>)
    requires ClusterShape(rows, weights) && |rows| > 0
    requires forall i, j :: 0 <= i < |rows| && 0 <= j < |CallMethods| ==> rows[i][j] <= 0.0
    ensures forall j :: 0 <= j < |CallMethods| ==> CollapseFeatures(rows, weights)[j] == 0.0
  {
    forall j | 0 <= j < |CallMethods| ensures Max(Column(rows, j)) <= 0.0 {
      var i :| 0 <= i < |rows| && Column(rows, j)[i] == Max(Column(rows, j));
      assert rows[i][j] <= 0.0;
    }
  }

  // ---------------------------------------------------------------------
  // All clusters
  // ---------------------------------------------------------------------

  /** The feature rows of a cluster's items. */
  function FeatureRows(items: seq<ParsedItem>): (rows: seq<seq<real>>)
    ensures |rows| == |items|
    ensures forall i :: 0 <= i < |items| ==> rows[i] == ToFeatures(items[i])
  {
    seq(|items|, i requires 0 <= i < |items| => ToFeatures(items[i]))
  }

  /** The weights of a cluster's items. */
  function ItemWeights(items: seq<ParsedItem>): (weights: seq<real>)
    ensures |weights| == |items|
    ensures forall i :: 0 <= i < |items| ==> weights[i] == ToWeight(items[i]) as real
  {
    seq(|items|, i requires 0 <= i < |items| => ToWeight(items[i]) as real)
  }

  /** Rows and weights built from parsed items have the shape the collapse expects. */
  lemma ItemsShape(items: seq<ParsedItem>)
    requires forall i :: 0 <= i < |items| ==> WellFormed(items[i])
    ensures ClusterShape(FeatureRows(items), ItemWeights(items))
  {
    forall i | 0 <= i < |items| {
      CallRateFeaturesInUnit(items[i]);
    }
  }

  /** The collapsed row of the cluster with label l. */
  function CollapseCluster(items: seq<ParsedItem>, labels: seq<int>, l: int): seq<real>
    requires forall i :: 0 <= i < |items| ==> WellFormed(items[i])
  {
    var members := Members(items, labels, l);
    ItemsShape(members);
    CollapseFeatures(FeatureRows(members), ItemWeights(members))
  }

  /**
   * A label with no items collapses to an empty row; one with items to a
   * full feature row whose call-rate entries lie in [0, 1].
   */
  lemma CollapseClusterShape(items: seq<ParsedItem>, labels: seq<int>, l: int)
    requires forall i :: 0 <= i < |items| ==> WellFormed(items[i])
    ensures |Members(items, labels, l)| == 0 <==> CollapseCluster(items, labels, l) == []
    ensures |Members(items, labels, l)| > 0 ==>
      var r := CollapseCluster(items, labels, l);
      |r| == |Features| && forall j :: 0 <= j < |CallMethods| ==> 0.0 <= r[j] <= 1.0
  {
    var members := Members(items, labels, l);
    ItemsShape(members);
    FeaturesShape();
  }

  /**
   * `collapse_clusters`: one collapsed row per distinct label, in ascending
   * label order, built from the items carrying that label.
   */
  function CollapseClusters(items: seq<ParsedItem>, labels: seq<int>): (r: seq<seq<real>>)
    requires forall i :: 0 <= i < |items| ==> WellFormed(items[i])
    ensures |r| == |SortedLabels(labels)|
    ensures forall c :: 0 <= c < |r| ==> r[c] == CollapseCluster(items, labels, SortedLabels(labels)[c])
  {
    var order := SortedLabels(labels);
    seq(|order|, c requires 0 <= c < |order| => CollapseCluster(items, labels, order[c]))
  }

  /** With a label for every item at most, every collapsed row is a full feature row. */
  lemma CollapsedRowsAreFull(items: seq<ParsedItem>, labels: seq<int>)
    requires forall i :: 0 <= i < |items| ==> WellFormed(items[i])
    requires |labels| <= |items|
    ensures forall c :: 0 <= c < |CollapseClusters(items, labels)| ==>
      |CollapseClusters(items, labels)[c]| == |Features|
  {
    var order := SortedLabels(labels);
    forall c | 0 <= c < |order|
      ensures |CollapseClusters(items, labels)[c]| == |Features|
    {
      assert order[c] in order;
      var i :| 0 <= i < |labels| && labels[i] == order[c];
      MembersNonEmpty(items, labels, i);
      var members := Members(items, labels, order[c]);
      ItemsShape(members);
    }
  }
}
