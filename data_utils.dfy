/**
 * Feature derivation (py/data_utils.py): a caller record becomes a parsed
 * item of proportions and counts, then a fixed-order feature vector and an
 * importance weight; labels get display names; items are grouped by label;
 * the feature names present in a data set are collected in sorted order.
 */
module DataUtils {
  import opened Util
  import opened Tally
  import CallData

  // ---------------------------------------------------------------------
  // Feature names
  // ---------------------------------------------------------------------

  const CallPrefix := "calls_to_"
  const UniqueSenders := "unique_senders"

  /**
   * The methods whose call rates are features, in the canonical order; the
   * feature names are these with the `calls_to_` prefix.
   */
  const CallMethods: seq<string> := [
    "batchCancelOrders",
    "batchFillOrKillOrders",
    "batchFillOrders",
    "batchFillOrdersNoThrow",
    "cancelOrder",
    "cancelOrdersUpTo",
    "fillOrKillOrder",
    "fillOrder",
    "fillOrderNoThrow",
    "marketBuyOrders",
    "marketBuyOrdersNoThrow",
    "marketBuyOrdersWithEth",
    "marketSellOrders",
    "marketSellOrdersNoThrow",
    "marketSellOrdersWithEth",
    "matchOrders",
    "preSign",
    "tx_batchFillOrders",
    "tx_cancelOrder",
    "tx_fillOrKillOrder",
    "tx_fillOrder"
  ]

  /** The canonical feature list: every vector is laid out in this order. */
  const Features: seq<string> := FeatureNames(CallMethods) + [UniqueSenders]

  /** Each method name with the `calls_to_` prefix. */
  function FeatureNames(methods: seq<string>): (names: seq<string>)
    ensures |names| == |methods|
    ensures forall i :: 0 <= i < |methods| ==> names[i] == CallPrefix + methods[i]
  {
    if |methods| == 0 then [] else FeatureNames(methods[..|methods| - 1]) + [CallPrefix + methods[|methods| - 1]]
  }

  /** `name.startswith('calls_to_')`. */
  predicate IsCallRateName(name: string)
  {
    |name| >= |CallPrefix| && name[..|CallPrefix|] == CallPrefix
  }

  /** The prefix can be recognised and stripped again. */
  lemma CallRateName(k: string)
    ensures IsCallRateName(CallPrefix + k)
    ensures (CallPrefix + k)[|CallPrefix|..] == k
  {
    assert (CallPrefix + k)[..|CallPrefix|] == CallPrefix;
  }

  /**
   * Every canonical feature is a call rate except the last, which is the
   * unique-senders count.
   */
  lemma FeaturesShape()
    ensures |Features| == |CallMethods| + 1
    ensures Features[|CallMethods|] == UniqueSenders && !IsCallRateName(UniqueSenders)
    ensures forall j :: 0 <= j < |CallMethods| ==>
      IsCallRateName(Features[j]) && Features[j][|CallPrefix|..] == CallMethods[j]
  {
    forall j | 0 <= j < |CallMethods|
      ensures IsCallRateName(Features[j]) && Features[j][|CallPrefix|..] == CallMethods[j]
    {
      CallRateName(CallMethods[j]);
    }
    assert UniqueSenders[0] != CallPrefix[0];
  }

  // ---------------------------------------------------------------------
  // softsign
  // ---------------------------------------------------------------------

  function Abs(x: real): real
  {
    if x < 0.0 then -x else x
  }

  /** A quotient by a positive number keeps the numerator's sign and, when |x| < d, stays in (-1, 1). */
  lemma QuotientBounds(x: real, d: real)
    requires d > 0.0 && -d < x < d
    ensures -1.0 < x / d < 1.0
    ensures (x / d < 0.0) == (x < 0.0) && (x / d == 0.0) == (x == 0.0)
  {
    var q := x / d;
    assert q * d == x;
    assert q >= 1.0 ==> q * d >= d;
    assert q <= -1.0 ==> q * d <= -d;
    assert q < 0.0 ==> q * d < 0.0;
    assert q > 0.0 ==> q * d > 0.0;
  }

  /** `softsign(x) = x / (1 + |x|)`: a bounded squashing of counts, with the sign of x. */
  function Softsign(x: real): (r: real)
    ensures -1.0 < r < 1.0
    ensures (r < 0.0) == (x < 0.0) && (r == 0.0) == (x == 0.0)
  {
    QuotientBounds(x, 1.0 + Abs(x));
    x / (1.0 + Abs(x))
  }

  /** softsign is odd. */
  lemma SoftsignOdd(x: real)
    ensures Softsign(-x) == -Softsign(x)
  {
    assert Abs(-x) == Abs(x);
  }

  /** For positive denominators, comparing quotients is comparing cross products. */
  lemma QuotientLess(a: real, b: real, c: real, d: real)
    requires b > 0.0 && d > 0.0 && a * d < c * b
    ensures a / b < c / d
  {
    var p, q := a / b, c / d;
    assert p * b == a && q * d == c;
    assert p * b * d < q * d * b;
  }

  /** softsign is strictly increasing, so squashing never reorders counts. */
  lemma SoftsignIncreasing(x: real, y: real)
    requires x < y
    ensures Softsign(x) < Softsign(y)
  {
    var dx, dy := 1.0 + Abs(x), 1.0 + Abs(y);
    assert x * Abs(y) - y * Abs(x) <= 0.0 by {
      if x >= 0.0 {
        assert x * Abs(y) - y * Abs(x) == x * y - y * x;
      } else if y < 0.0 {
        assert x * Abs(y) - y * Abs(x) == -(x * y) + y * x;
      } else {
        assert x * Abs(y) - y * Abs(x) == 2.0 * (x * y);
        assert x * y <= 0.0;
      }
    }
    assert x * dy - y * dx == (x - y) + (x * Abs(y) - y * Abs(x));
    QuotientLess(x, dx, y, dy);
  }

  // ---------------------------------------------------------------------
  // Parsing a caller record
  // ---------------------------------------------------------------------

  /**
   * The dictionary `parse_cluster_data_item` builds; `callRates` maps a method
   * name k to the value stored under the key 'calls_to_' + k.
   */
  datatype ParsedItem = ParsedItem(
    caller: string,
    uniqueSenders: nat,
    uniqueFeeRecipients: nat,
    uniqueMakers: nat,
    totalCalls: nat,
    totalOrders: nat,
    totalFills: nat,
    maxCalls: nat,
    callRates: map<string, real>)

  datatype ParseError =
    | EmptyMethods    // `max()` of no values raises
    | ZeroTotalCalls  // the proportions divide by zero

  /**
   * `parse_cluster_data_item`: counts become proportions of the record's
   * total calls; senders are counted without the caller itself; the order
   * total is the record's update count.
   */
  ghost function ParseClusterDataItem(data: CallData.CallerInfo): (r: Result<ParsedItem, ParseError>)
    ensures r == Err(EmptyMethods) <==> |data.methods| == 0
    ensures r == Err(ZeroTotalCalls) <==> |data.methods| > 0 && Total(data.methods) == 0
    ensures r.Ok? ==> r.value.callRates.Keys == data.methods.Keys
    ensures r.Ok? ==> forall k :: k in r.value.callRates ==> 0.0 <= r.value.callRates[k] <= 1.0
    ensures r.Ok? ==> 0 < r.value.maxCalls <= r.value.totalCalls
  {
    var total := Total(data.methods);
    if |data.methods| == 0 then Err(EmptyMethods)
    else if total == 0 then Err(ZeroTotalCalls)
    else
      var maxCalls := MaxCount(data.methods);
      MaxCountPositive(data.methods);
      var rates := Scaled(data.methods, total as real);
      SharesInUnit(data.methods);
      Ok(ParsedItem(
        data.caller,
        |data.senders.Keys - {data.caller}|,
        |data.feeRecipients|,
        |data.makers|,
        total,
        data.updateCount,
        data.fillCount,
        maxCalls,
        rates))
  }

  /** A non-zero total makes the largest count positive, and no count exceeds the total. */
  lemma MaxCountPositive(m: map<string, nat>)
    requires |m| > 0 && Total(m) > 0
    ensures 0 < MaxCount(m) <= Total(m)
  {
    var k :| k in m && m[k] == MaxCount(m);
    TotalBounds(m, k);
    TotalZero(m);
  }

  /** Each count's share of a positive total lies in [0, 1]. */
  lemma SharesInUnit(m: map<string, nat>)
    requires Total(m) > 0
    ensures forall j :: j in m ==> 0.0 <= Scaled(m, Total(m) as real)[j] <= 1.0
  {
    forall j | j in m ensures 0.0 <= Scaled(m, Total(m) as real)[j] <= 1.0 {
      TotalBounds(m, j);
      UnitQuotient(m[j] as real, Total(m) as real);
    }
  }

  lemma UnitQuotient(a: real, t: real)
    requires 0.0 <= a <= t && t > 0.0
    ensures 0.0 <= a / t <= 1.0
  {
    var q := a / t;
    assert q * t == a;
  }

  /**
   * The parsed counts, one by one: each proportion is the method's share of
   * the total; senders exclude the caller; the order and fill totals are
   * the record's update and fill counts; the maximum is the largest method
   * count.
   */
  lemma ParsedFields(data: CallData.CallerInfo)
    requires ParseClusterDataItem(data).Ok?
    ensures var item := ParseClusterDataItem(data).value;
      && item.caller == data.caller
      && item.totalCalls == Total(data.methods)
      && (forall k :: k in data.methods ==>
            item.callRates[k] == data.methods[k] as real / item.totalCalls as real)
      && item.uniqueSenders == |set a | a in data.senders && a != data.caller|
      && item.uniqueFeeRecipients == |data.feeRecipients| && item.uniqueMakers == |data.makers|
      && item.totalOrders == data.updateCount && item.totalFills == data.fillCount
      && (forall k :: k in data.methods ==> data.methods[k] <= item.maxCalls)
      && (exists k :: k in data.methods && data.methods[k] == item.maxCalls)
  {
    assert (set a | a in data.senders && a != data.caller) == data.senders.Keys - {data.caller};
  }

  /** The call proportions of a parsed record add up to exactly one. */
  lemma RatesSumToOne(data: CallData.CallerInfo)
    requires ParseClusterDataItem(data).Ok?
    ensures SumReal(ParseClusterDataItem(data).value.callRates) == 1.0
  {
    SharesSumToOne(data.methods);
  }

  /** The shares of a positive total add up to one. */
  lemma SharesSumToOne(m: map<string, nat>)
    requires Total(m) > 0
    ensures SumReal(Scaled(m, Total(m) as real)) == 1.0
  {
    var t := Total(m) as real;
    SumScaled(m, t);
    assert t / t == 1.0;
  }

  /**
   * Every record the accumulator holds after a successfully handled line is
   * accepted by the parser.
   */
  lemma AccumulatedRecordsParse(table: map<string, CallData.CallerInfo>, a: string)
    requires CallData.ValidTable(table) && CallData.CompleteTable(table) && a in table
    ensures ParseClusterDataItem(table[a]).Ok?
  {
    var m := table[a].methods;
    var k :| k in m;
    TotalBounds(m, k);
  }

  // ---------------------------------------------------------------------
  // Dictionary view of a parsed item, and the feature vector
  // ---------------------------------------------------------------------

  /** The keys of the parsed dictionary. */
  function Keys(item: ParsedItem): set<string>
  {
    {"caller", UniqueSenders, "unique_fee_recipients", "unique_makers",
     "total_calls", "total_orders", "total_fills", "max_calls"}
    + set k | k in item.callRates :: CallPrefix + k
  }

  /** The call rate stored for method k, or 0 when the record never called it. */
  function RateOf(item: ParsedItem, k: string): real
  {
    if k in item.callRates then item.callRates[k] else 0.0
  }

  /**
   * The value `to_features` reads for a feature name: the squashed counts
   * for the three diversity features, the stored number for any other key,
   * 0 when the key is absent.
   */
  function FeatureValue(item: ParsedItem, name: string): real
  {
    if name == UniqueSenders then Softsign(item.uniqueSenders as real)
    else if name == "unique_fee_recipients" then Softsign(item.uniqueFeeRecipients as real)
    else if name == "unique_makers" then Softsign(item.uniqueMakers as real)
    else if name == "total_calls" then item.totalCalls as real
    else if name == "total_orders" then item.totalOrders as real
    else if name == "total_fills" then item.totalFills as real
    else if name == "max_calls" then item.maxCalls as real
    else if IsCallRateName(name) then RateOf(item, name[|CallPrefix|..])
    else 0.0
  }

  /**
   * A name the record does not hold reads as 0, and the three diversity
   * counts are squashed into [0, 1).
   */
  lemma FeatureValueRule(item: ParsedItem, name: string)
    ensures name !in Keys(item) ==> FeatureValue(item, name) == 0.0
    ensures name == UniqueSenders || name == "unique_fee_recipients" || name == "unique_makers" ==>
      0.0 <= FeatureValue(item, name) < 1.0
  {
    if name !in Keys(item) && IsCallRateName(name) {
      var k := name[|CallPrefix|..];
      assert name == CallPrefix + k;
      assert k !in item.callRates;
    }
  }

  /** The entry of a call-rate feature is the rate of the method it names. */
  lemma FeatureValueOfCallRate(item: ParsedItem, k: string)
    ensures FeatureValue(item, CallPrefix + k) == RateOf(item, k)
  {
    CallRateName(k);
    assert (CallPrefix + k)[0] == 'c';
  }

  /**
   * `to_features`: the item as a vector in the canonical feature order; the
   * rate of each listed method (0 when never called), then the squashed
   * number of distinct senders.
   */
  function ToFeatures(item: ParsedItem): (v: seq<real>)
    ensures |v| == |Features|
    ensures forall j :: 0 <= j < |CallMethods| ==> v[j] == RateOf(item, CallMethods[j])
    ensures v[|CallMethods|] == Softsign(item.uniqueSenders as real)
  {
    var v := seq(|Features|, j requires 0 <= j < |Features| => FeatureValue(item, Features[j]));
    assert forall j :: 0 <= j < |CallMethods| ==> v[j] == RateOf(item, CallMethods[j]) by {
      forall j | 0 <= j < |CallMethods| ensures v[j] == RateOf(item, CallMethods[j]) {
        FeatureValueOfCallRate(item, CallMethods[j]);
      }
    }
    v
  }

  /** An item the parser produced: its call rates are proportions. */
  ghost predicate WellFormed(item: ParsedItem)
  {
    forall k :: k in item.callRates ==> 0.0 <= item.callRates[k] <= 1.0
  }

  lemma ParsedIsWellFormed(data: CallData.CallerInfo)
    requires ParseClusterDataItem(data).Ok?
    ensures WellFormed(ParseClusterDataItem(data).value)
  {
  }

  /** The call-rate entries of a well-formed item's feature vector lie in [0, 1]. */
  lemma CallRateFeaturesInUnit(item: ParsedItem)
    requires WellFormed(item)
    ensures forall j :: 0 <= j < |CallMethods| ==> 0.0 <= ToFeatures(item)[j] <= 1.0
  {
  }

  /** `to_weight`: at least 1, and at least the order total and the unique senders. */
  function ToWeight(item: ParsedItem): (w: nat)
    ensures w >= 1 && w >= item.totalOrders && w >= item.uniqueSenders
    ensures w == 1 || w == item.totalOrders || w == item.uniqueSenders
  {
    var m := if item.totalOrders > 1 then item.totalOrders else 1;
    if item.uniqueSenders > m then item.uniqueSenders else m
  }

  // ---------------------------------------------------------------------
  // Label names
  // ---------------------------------------------------------------------

  const Wildlings := "WILDLINGS"

  /**
   * `label_to_classs_name`: the outlier label is "WILDLINGS"; the class
   * names are reused cyclically, with the round number appended once the
   * list is exhausted.
   */
  function LabelToClassName(lab: int, classNames: seq<string>): (name: string)
    requires lab >= 0 ==> |classNames| > 0
    ensures lab < 0 ==> name == Wildlings
    ensures 0 <= lab < |classNames| ==> name == classNames[lab]
    ensures lab >= |classNames| > 0 ==>
      name == classNames[lab % |classNames|] + "_" + NatToString(lab / |classNames|)
  {
    var base := if lab >= 0 then classNames[lab % |classNames|] else Wildlings;
    if lab >= |classNames| then base + "_" + NatToString(lab / |classNames|) else base
  }

  /** Splitting "a_s" at its first underscore recovers a and s. */
  lemma SplitAtUnderscore(a: string, s: string, b: string, t: string)
    requires '_' !in a && '_' !in b
    requires a + "_" + s == b + "_" + t
    ensures a == b && s == t
  {
    var x := a + "_" + s;
    assert forall i :: 0 <= i < |a| ==> x[i] == a[i] != '_';
    assert forall i :: 0 <= i < |b| ==> x[i] == b[i] != '_';
    assert x[|a|] == '_' && x[|b|] == '_';
    assert a == x[..|a|] == b;
    assert s == x[|a| + 1..] == t;
  }

  /**
   * With distinct class names that contain no underscore and are not
   * "WILDLINGS", different labels (the outlier label included) get different
   * names, so grouping by name loses nothing.
   */
  lemma ClassNamesDistinct(l1: int, l2: int, classNames: seq<string>)
    requires l1 >= -1 && l2 >= -1 && l1 != l2
    requires |classNames| > 0
    requires forall i, j :: 0 <= i < j < |classNames| ==> classNames[i] != classNames[j]
    requires forall i :: 0 <= i < |classNames| ==> '_' !in classNames[i] && classNames[i] != Wildlings
    ensures LabelToClassName(l1, classNames) != LabelToClassName(l2, classNames)
  {
    var L := |classNames|;
    if l1 >= L && l2 >= L {
      if LabelToClassName(l1, classNames) == LabelToClassName(l2, classNames) {
        RoundNamesDistinct(l1, l2, classNames);
        assert false;
      }
    } else if l1 >= L {
      RoundNameHasUnderscore(l1, classNames);
      FirstRoundNameHasNoUnderscore(l2, classNames);
    } else if l2 >= L {
      RoundNameHasUnderscore(l2, classNames);
      FirstRoundNameHasNoUnderscore(l1, classNames);
    }
  }

  /** Names from the second round on carry an underscore. */
  lemma RoundNameHasUnderscore(lab: int, classNames: seq<string>)
    requires lab >= |classNames| > 0
    ensures '_' in LabelToClassName(lab, classNames)
  {
    var base := classNames[lab % |classNames|];
    assert LabelToClassName(lab, classNames)[|base|] == '_';
  }

  /** The outlier name and first-round names carry none, if the class names do not. */
  lemma FirstRoundNameHasNoUnderscore(lab: int, classNames: seq<string>)
    requires -1 <= lab < |classNames|
    requires forall i :: 0 <= i < |classNames| ==> '_' !in classNames[i]
    ensures '_' !in LabelToClassName(lab, classNames)
  {
  }

  /** Two later-round labels with the same name are the same label. */
  lemma RoundNamesDistinct(l1: int, l2: int, classNames: seq<string>)
    requires l1 >= |classNames| && l2 >= |classNames| && |classNames| > 0
    requires forall i, j :: 0 <= i < j < |classNames| ==> classNames[i] != classNames[j]
    requires forall i :: 0 <= i < |classNames| ==> '_' !in classNames[i]
    requires LabelToClassName(l1, classNames) == LabelToClassName(l2, classNames)
    ensures l1 == l2
  {
    var L := |classNames|;
    var i1, i2 := l1 % L, l2 % L;
    var n1, n2 := NatToString(l1 / L), NatToString(l2 / L);
    assert LabelToClassName(l1, classNames) == classNames[i1] + "_" + n1;
    assert LabelToClassName(l2, classNames) == classNames[i2] + "_" + n2;
    SplitAtUnderscore(classNames[i1], n1, classNames[i2], n2);
    NatToStringInjective(l1 / L, l2 / L);
    DistinctIndices(classNames, i1, i2);
    SameQuotientAndRemainder(l1, l2, L);
  }

  /** In a list without repeats, equal entries sit at the same index. */
  lemma DistinctIndices(names: seq<string>, i: int, j: int)
    requires forall a, b :: 0 <= a < b < |names| ==> names[a] != names[b]
    requires 0 <= i < |names| && 0 <= j < |names| && names[i] == names[j]
    ensures i == j
  {
  }

  /** A number is determined by its quotient and remainder. */
  lemma SameQuotientAndRemainder(a: int, b: int, d: int)
    requires d > 0 && a / d == b / d && a % d == b % d
    ensures a == b
  {
    var q, r := a / d, a % d;
    assert a == q * d + r;
    assert b == q * d + r;
  }

  // ---------------------------------------------------------------------
  // Grouping by label
  // ---------------------------------------------------------------------

  function Min(a: nat, b: nat): nat { if a < b then a else b }

  /** Which of the labels equal l. */
  function LabelMask(labels: seq<int>, l: int): (mask: seq<bool>)
    ensures |mask| == |labels|
    ensures forall i :: 0 <= i < |labels| ==> mask[i] == (labels[i] == l)
  {
    seq(|labels|, i requires 0 <= i < |labels| => labels[i] == l)
  }

  /** `[d for (d, dl) in zip(items, labels) if dl == l]`. */
  function Members<T>(items: seq<T>, labels: seq<int>, l: int): (r: seq<T>)
    ensures var n := Min(|items|, |labels|);
      && |r| == Count(LabelMask(labels[..n], l))
      && forall k :: 0 <= k < |r| ==>
           var i := Positions(LabelMask(labels[..n], l))[k];
           i < n && labels[i] == l && r[k] == items[i]
  {
    var n := Min(|items|, |labels|);
    Filter(items[..n], LabelMask(labels[..n], l))
  }

  /**
   * `split_by_labels(..., numeric=True)`: one bucket per distinct label,
   * holding the items with that label in input order.
   */
  function SplitByLabels<T>(items: seq<T>, labels: seq<int>): (groups: map<int, seq<T>>)
    ensures groups.Keys == set l | l in labels
    ensures forall l :: l in groups ==> groups[l] == Members(items, labels, l)
  {
    map l | l in labels :: Members(items, labels, l)
  }

  /** A label that occurs within the zipped prefix has a non-empty bucket. */
  lemma MembersNonEmpty<T>(items: seq<T>, labels: seq<int>, i: nat)
    requires i < |items| && i < |labels|
    ensures |Members(items, labels, labels[i])| > 0
  {
    var n := Min(|items|, |labels|);
    var mask := LabelMask(labels[..n], labels[i]);
    assert mask[i];
    PositionsRank(mask);
  }

  /** Ascending order with no repeats. */
  predicate Increasing(s: seq<int>)
  {
    forall i, j :: 0 <= i < j < |s| ==> s[i] < s[j]
  }

  /** Inserts x into an increasing sequence unless it is already there. */
  function InsertLabel(s: seq<int>, x: int): (r: seq<int>)
    requires Increasing(s)
    ensures Increasing(r)
    ensures forall y :: y in r <==> y in s || y == x
  {
    if |s| == 0 then [x]
    else if x < s[0] then [x] + s
    else if x == s[0] then s
    else
      var r := InsertLabel(s[1..], x);
      assert forall i :: 0 <= i < |r| ==> r[i] in s[1..] || r[i] == x;
      assert forall i :: 0 <= i < |r| ==> s[0] < r[i];
      [s[0]] + r
  }

  /** `sorted(frozenset(labels))`: the distinct labels in ascending order. */
  function SortedLabels(labels: seq<int>): (r: seq<int>)
    ensures Increasing(r)
    ensures forall l :: l in r <==> l in labels
  {
    if |labels| == 0 then []
    else InsertLabel(SortedLabels(labels[..|labels| - 1]), labels[|labels| - 1])
  }

  /** The size of each bucket. */
  function BucketSizes<T>(groups: map<int, seq<T>>): map<int, nat>
  {
    map l | l in groups :: |groups[l]|
  }

  /** For each label of s, how many of the first p positions carry it. */
  function LabelCounts(labels: seq<int>, p: nat, s: set<int>): (m: map<int, nat>)
    requires p <= |labels|
    ensures m.Keys == s
  {
    map l | l in s :: Count(LabelMask(labels[..p], l))
  }

  /** Over a set of labels that covers a prefix, the per-label counts add up to its length. */
  lemma {:induction false} PrefixCounts(labels: seq<int>, p: nat, s: set<int>)
    requires p <= |labels|
    requires forall i :: 0 <= i < p ==> labels[i] in s
    ensures Total(LabelCounts(labels, p, s)) == p
  {
    if p == 0 {
      LabelCountsEmpty(labels, s);
    } else {
      PrefixCounts(labels, p - 1, s);
      LabelCountsStep(labels, p, s);
    }
  }

  lemma LabelCountsEmpty(labels: seq<int>, s: set<int>)
    ensures Total(LabelCounts(labels, 0, s)) == 0
  {
    var m := LabelCounts(labels, 0, s);
    forall l | l in m ensures m[l] == 0 {
      assert LabelMask(labels[..0], l) == [];
    }
    TotalZero(m);
  }

  /** One more position adds one to the total. */
  lemma LabelCountsStep(labels: seq<int>, p: nat, s: set<int>)
    requires 0 < p <= |labels| && labels[p - 1] in s
    ensures Total(LabelCounts(labels, p, s)) == Total(LabelCounts(labels, p - 1, s)) + 1
  {
    LabelCountsBump(labels, p, s);
    TotalBump(LabelCounts(labels, p - 1, s), labels[p - 1]);
  }

  /** One more position adds one to the count of its own label. */
  lemma LabelCountsBump(labels: seq<int>, p: nat, s: set<int>)
    requires 0 < p <= |labels| && labels[p - 1] in s
    ensures LabelCounts(labels, p, s) == Bump(LabelCounts(labels, p - 1, s), labels[p - 1])
  {
    var m, m0 := LabelCounts(labels, p, s), LabelCounts(labels, p - 1, s);
    var a := labels[p - 1];
    var b := Bump(m0, a);
    assert b.Keys == s;
    forall l | l in s
      ensures m[l] == b[l]
    {
      assert LabelMask(labels[..p], l)[..p - 1] == LabelMask(labels[..p - 1], l);
    }
  }

  /** Every item (up to the shorter of the two inputs) lands in exactly one bucket. */
  lemma SplitByLabelsCoversInput<T>(items: seq<T>, labels: seq<int>)
    ensures Total(BucketSizes(SplitByLabels(items, labels))) == Min(|items|, |labels|)
  {
    var n := Min(|items|, |labels|);
    PrefixCounts(labels, n, set l | l in labels);
    BucketSizesAreCounts(items, labels);
  }

  lemma BucketSizesAreCounts<T>(items: seq<T>, labels: seq<int>)
    ensures BucketSizes(SplitByLabels(items, labels))
         == LabelCounts(labels, Min(|items|, |labels|), set l | l in labels)
  {
    var n := Min(|items|, |labels|);
    var groups := SplitByLabels(items, labels);
    var sizes := BucketSizes(groups);
    var counts := LabelCounts(labels, n, set l | l in labels);
    assert sizes.Keys == counts.Keys;
    forall l | l in sizes ensures sizes[l] == counts[l] {
      assert |groups[l]| == |Members(items, labels, l)|;
    }
  }

  // ---------------------------------------------------------------------
  // Collecting the feature names of a data set
  // ---------------------------------------------------------------------

  /** Python's string order: by code point, a proper prefix first. */
  predicate LexLess(a: string, b: string)
  {
    if |a| == 0 then |b| > 0
    else if |b| == 0 then false
    else if a[0] != b[0] then a[0] < b[0]
    else LexLess(a[1..], b[1..])
  }

  lemma {:induction false} LexLessIrreflexive(a: string)
    ensures !LexLess(a, a)
  {
    if |a| > 0 { LexLessIrreflexive(a[1..]); }
  }

  lemma {:induction false} LexLessTransitive(a: string, b: string, c: string)
    requires LexLess(a, b) && LexLess(b, c)
    ensures LexLess(a, c)
  {
    if |a| > 0 && |b| > 0 && |c| > 0 && a[0] == b[0] == c[0] {
      LexLessTransitive(a[1..], b[1..], c[1..]);
    }
  }

  lemma {:induction false} LexLessTotal(a: string, b: string)
    requires a != b
    ensures LexLess(a, b) || LexLess(b, a)
  {
    if |a| > 0 && |b| > 0 && a[0] == b[0] {
      assert a == [a[0]] + a[1..] && b == [b[0]] + b[1..];
      LexLessTotal(a[1..], b[1..]);
    }
  }

  lemma LexLessAsymmetric(a: string, b: string)
    requires LexLess(a, b)
    ensures !LexLess(b, a)
  {
    if LexLess(b, a) {
      LexLessTransitive(a, b, a);
      LexLessIrreflexive(a);
    }
  }

  /** Sorted in Python's string order with no repeats. */
  predicate StrictlySorted(s: seq<string>)
  {
    forall i, j :: 0 <= i < j < |s| ==> LexLess(s[i], s[j])
  }

  /** Inserts a new string into a strictly sorted sequence. */
  function Insert(s: seq<string>, x: string): (r: seq<string>)
    requires StrictlySorted(s) && x !in s
    ensures StrictlySorted(r)
    ensures |r| == |s| + 1
    ensures forall y :: y in r <==> y in s || y == x
  {
    if |s| == 0 then [x]
    else if LexLess(x, s[0]) then
      assert forall j :: 0 <= j < |s| ==> LexLess(x, s[j]) by {
        forall j | 0 <= j < |s| ensures LexLess(x, s[j]) {
          if j > 0 { LexLessTransitive(x, s[0], s[j]); }
        }
      }
      [x] + s
    else
      LexLessTotal(x, s[0]);
      var rest := Insert(s[1..], x);
      assert forall y :: y in rest ==> LexLess(s[0], y);
      [s[0]] + rest
  }

  /** The union of the keys of the first n items. */
  ghost function KeysUpTo(callData: seq<ParsedItem>, n: nat): set<string>
    requires n <= |callData|
  {
    set i, f | 0 <= i < n && f in Keys(callData[i]) :: f
  }

  /** `find_features`: every key of every item, sorted, each once. */
  method FindFeatures(callData: seq<ParsedItem>) returns (features: seq<string>)
    ensures StrictlySorted(features)
    ensures forall f :: f in features <==> exists i :: 0 <= i < |callData| && f in Keys(callData[i])
  {
    var found: set<string> := {};
    for i := 0 to |callData|
      invariant found == KeysUpTo(callData, i)
    {
      found := found + Keys(callData[i]);
      assert KeysUpTo(callData, i + 1) == KeysUpTo(callData, i) + Keys(callData[i]);
    }
    features := [];
    var rest := found;
    while rest != {}
      invariant rest <= found
      invariant StrictlySorted(features)
      invariant forall f :: f in features <==> f in found && f !in rest
      decreases |rest|
    {
      var x :| x in rest;
      features := Insert(features, x);
      rest := rest - {x};
    }
  }
}
