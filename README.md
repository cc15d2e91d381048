# 0x user clusters — a Dafny model of the clustering bookkeeping

This project models the deterministic bookkeeping of the 0x user-clustering
pipeline. The pipeline starts from raw exchange calls: it accumulates one
record per caller, turns each record into a fixed-order feature vector and a
weight, and labels the callers with a two-stage model. The first stage is a
density model that finds outliers; the second partitions the rest into
clusters. The pipeline then summarises and names the clusters for display.
The statistical fits are library code and appear only as function
parameters with stated guarantees.

Modules, one per source file plus two shared ones:

- `Util` holds `Option`/`Result` and the order-preserving selection of
  sequence elements by a mask (`Filter`, `Positions`, `Rank`). It also holds
  decimal rendering (`NatToString`) with its parser.
- `Tally` holds sums and maxima over count maps, and `Bump`, the
  "increment or start at 1" update.
- `CallData` covers `src/parse-call-data.js`. It models the post-decoding part
  of `CallDecoder.extractCalls`, including the `executeTransaction`
  recursion. It also models the `'line'` handler as a class `CallerTable`
  whose `callers` map and counters are updated in place.
- `DataUtils` covers `py/data_utils.py`: parsing a caller record, `softsign`,
  the feature vector and weight, label naming, grouping by label and
  `find_features`.
- `Collapse` covers `collapse_features` and `collapse_clusters` from
  `py/data_utils.py`, with `attenuate = 0` and `brighten = 0`.
- `Clustering` covers `py/clustering_model.py`: the nearest-core-point outlier
  rule, outlier filtering, label merging, and the class `ClusteringModel`
  with `fit` and `predict`.
- `Visuals` covers `py/visuals.py`: `to_feature_name`, `reorder` and
  `create_label_names`.

Distances are squared Euclidean distances over `real`, compared with
`eps * eps` (`eps > 0`). This picks the same nearest point and gives the same
threshold result as the square-rooted norm.

## Model

| member | source | states |
|---|---|---|
| CallData.OrdersOf | src/parse-call-data.js:137-147 | A decoded `order` gives exactly that one order. A `leftOrder` gives left then right, and is an error when the right order is missing. Otherwise the result is `orders`, or the empty list when that is absent. |
| CallData.MakeCall | src/parse-call-data.js:148-165 | The call keeps the method name and its orders. Fills and updates are 0 unless the call type is `'call'`. With `'call'`, updates equal the order count and fills equal it exactly when the name contains fill/buy/sell/match in any case. So fills ≤ updates ≤ orders. |
| CallData.FillLikePrefixed | src/parse-call-data.js:149-152 | Prefixing `tx_` to a method name never changes whether the fill/buy/sell/match test accepts it. |
| CallData.ExtractCalls | src/parse-call-data.js:120-173 | An unknown selector is an error naming the selector. A success starts with the call of the selector's method. It holds one call unless that method is `executeTransaction`. Every later call's id starts with `tx_`, and every call obeys the fills/updates rule. |
| CallData.DecodedArgsOf | src/parse-call-data.js:126-136 | A decoding failure gives the empty argument object; otherwise the decoded arguments are used. |
| CallData.ExtractCallsStructure | src/parse-call-data.js:120-173 | An error in choosing the orders is passed on. The first call is `MakeCall` of the method name and the chosen orders. A method other than `executeTransaction` gives exactly that call. An `executeTransaction` without `data` fails with a missing-data error. With `data`, the remaining calls are exactly the calls of `data` with `tx_`-prefixed ids, and an error of `data` is passed on. |
| CallData.TotalsAppend | src/parse-call-data.js:69-79 | The order, fill and update totals of two lists of calls add up. |
| CallData.PrefixedTotals | src/parse-call-data.js:166-172 | Prefixing the ids keeps the order, fill and update totals. Each id k of the inner calls is counted under `tx_` + k exactly as often. |
| CallData.PrefixInjective | src/parse-call-data.js:169 | Two ids are equal exactly when their `tx_`-prefixed forms are. |
| CallData.ExtractCallsTotals | src/parse-call-data.js:166-172 | An `executeTransaction` line counts the orders, fills and updates of its own call plus exactly those of the wrapped transaction's calls. |
| CallData.CallerOf | src/parse-call-data.js:57-58 | A direct call is attributed to `fromAddress`; a call through a contract is attributed to `toAddress`. |
| CallData.InWindowBounds | src/parse-call-data.js:50-52 | The corrected window test accepts a line exactly when `since <= timestamp <= until`. It is the test as written with the upper bound added, and the test as written does not depend on `until` at all. |
| CallData.AsWrittenAcceptsLateCalls | src/parse-call-data.js:50 | The window test as written accepts a line stamped after `until`. |
| CallData.RecordOrdersEffect | src/parse-call-data.js:70-76 | Recording orders raises `orderCount` by their number. For every address, the fee-recipient and maker counts rise by the number of orders naming it. Nothing else changes. |
| CallData.RecordCallEffect | src/parse-call-data.js:69-79 | One call adds its orders, fills and updates to the counters. It raises its method's count by 1, leaves every other method's count alone, and adds its id to the method keys. Every address's fee-recipient and maker counts rise by the number of the call's orders naming it. |
| CallData.RecordCallsEffect | src/parse-call-data.js:69-83 | Over a sequence of calls, the counters grow by the totals of orders, fills and updates. Each method's count grows by the number of calls with that id. The method keys grow by the set of ids. Every address's fee-recipient and maker counts grow by the number of the calls' orders naming it. The caller and senders stay unchanged. |
| CallData.RecordCallsTotal | src/parse-call-data.js:79 | The method counts grow in total by exactly the number of calls recorded. |
| CallData.SenderCounted | src/parse-call-data.js:59-68 | Accepting a line increments the count of its `fromAddress` by 1 and leaves every other sender's count unchanged. The record is filed under the caller. Its methods, makers, fee recipients and order, fill and update counters are unchanged. |
| CallData.UpdateTable | src/parse-call-data.js:59-67 | Storing a record under its own caller with positive counts keeps the table well-formed. It keeps the table complete (no record without methods) when the record has a method. |
| CallData.RecordCallsNonEmpty | src/parse-call-data.js:79 | Recording at least one call leaves the record with at least one method. |
| CallData.CallerTable.RecordOrdersFor | src/parse-call-data.js:70-76 | The loop over one call's orders leaves the table with that caller's record replaced by the order fold. The global order counter rises by the number of orders. |
| CallData.CallerTable.RecordCallFor | src/parse-call-data.js:69-79 | One call updates that caller's record as `RecordCall` specifies. The call counter rises by 1 and the order counter by the call's order count. |
| CallData.CallerTable.RecordCallsFor | src/parse-call-data.js:69-83 | The loop over the extracted calls leaves that caller's record equal to the call fold, with the counters advanced by the call and order totals. |
| CallData.CallerTable.HandleLine | src/parse-call-data.js:48-84 | A line outside the window changes nothing. An accepted line counts its sender under the attributed caller, creating the record when new. Then either every extracted call is recorded and the counters advance, or the decoding error is reported with only the sender counted. The table stays well-formed, and complete after a recorded line. |
| DataUtils.FeaturesShape | py/data_utils.py:7-45 | The feature list is the 21 `calls_to_` method names in order, then `unique_senders`. That last name is not a call-rate name. |
| DataUtils.Softsign | py/data_utils.py:47-48 | `x / (1 + abs(x))` lies strictly between -1 and 1 and has the sign of x. It is zero exactly at zero. |
| DataUtils.SoftsignOdd | py/data_utils.py:47-48 | softsign(-x) = -softsign(x). |
| DataUtils.SoftsignIncreasing | py/data_utils.py:47-48 | softsign is strictly increasing. |
| DataUtils.ParseClusterDataItem | py/data_utils.py:50-67 | Parsing fails exactly when the method map is empty, because `max` of nothing raises. It also fails exactly when the total is zero, because of division by zero. On success the rates have the record's method keys, lie in [0, 1], and 0 < max_calls ≤ total_calls. |
| DataUtils.ParsedFields | py/data_utils.py:51-64 | `calls_to_k` = count_k / total. unique_senders counts the senders other than the caller. total_orders = updateCount and total_fills = fillCount. max_calls is the largest method count and is attained. |
| DataUtils.RatesSumToOne | py/data_utils.py:66 | The parsed call rates of a record sum to 1. |
| DataUtils.AccumulatedRecordsParse | py/data_utils.py:50-67 | Every record the line handler accumulates (well-formed and complete) parses without error. |
| DataUtils.FeatureValueRule | py/data_utils.py:75-84 | A name the record does not hold reads as 0, as `.get(name, 0)` does. The three diversity counts read as their softsign, which lies in [0, 1). |
| DataUtils.FeatureValueOfCallRate | py/data_utils.py:75-84 | The entry of `calls_to_k` is the record's rate for k, or 0 when it never called k. |
| DataUtils.ToFeatures | py/data_utils.py:75-84 | The vector has one entry per feature, in feature order. A call-rate entry is the method's rate, or 0 when never called. The last entry is softsign(unique_senders). |
| DataUtils.CallRateFeaturesInUnit | py/data_utils.py:75-84 | Every call-rate entry of a parsed item's vector lies in [0, 1]. |
| DataUtils.ToWeight | py/data_utils.py:86-87 | The weight is at least 1, total_orders and unique_senders, and equals one of them. |
| DataUtils.LabelToClassName | py/data_utils.py:93-97 | A negative label is `WILDLINGS`. A label below L is `CLASS_NAMES[label]`. Any other label is `CLASS_NAMES[label % L] + '_' + str(label // L)`. |
| DataUtils.ClassNamesDistinct | py/data_utils.py:93-97 | With distinct class names free of `_` and different from `WILDLINGS`, distinct labels ≥ -1 get distinct names. |
| DataUtils.RoundNamesDistinct | py/data_utils.py:94-96 | Two labels ≥ L with the same name are equal: the name determines both the index and the round. |
| DataUtils.Members | py/data_utils.py:101-106 | The bucket of label l holds exactly the items whose label is l, in input order. |
| DataUtils.SplitByLabels | py/data_utils.py:99-108 | The keys are exactly the distinct labels, and each bucket is that label's members. |
| DataUtils.MembersNonEmpty | py/data_utils.py:99-108 | The bucket of a label that occurs is not empty. |
| DataUtils.SplitByLabelsCoversInput | py/data_utils.py:99-108 | The bucket sizes sum to the number of (item, label) pairs. |
| DataUtils.BucketSizesAreCounts | py/data_utils.py:99-108 | Each bucket's size is the number of occurrences of its label. |
| DataUtils.SortedLabels | py/data_utils.py:170 | `sorted(frozenset(labels))` is strictly increasing and holds exactly the labels that occur. |
| DataUtils.Insert | py/data_utils.py:72-73 | Inserting a new name into a strictly sorted list keeps it strictly sorted and adds exactly that name. |
| DataUtils.LexLessTransitive | py/data_utils.py:73 | String order is transitive. |
| DataUtils.LexLessTotal | py/data_utils.py:73 | String order is total on distinct strings. |
| DataUtils.FindFeatures | py/data_utils.py:69-73 | The result is strictly sorted, so it has no duplicates. It holds exactly the keys that occur in some item. |
| Collapse.Max | py/data_utils.py:135 | The column maximum bounds every entry and is attained. |
| Collapse.SumDivided | py/data_utils.py:143 | Dividing every entry by t divides the sum by t. |
| Collapse.WeightedSumBounds | py/data_utils.py:146 | With positive weights and entries in [lo, hi], the weighted sum lies between lo·Σw and hi·Σw. |
| Collapse.WeightedMeanBounds | py/data_utils.py:146 | The weighted mean `Σ(v·w)/Σw` of entries in [lo, hi] lies in [lo, hi]. |
| Collapse.CallsSumMax | py/data_utils.py:128-132 | `calls_sum_max` is non-negative and at least every call-rate column's weighted maximum. |
| Collapse.CallsSumMaxCovers | py/data_utils.py:128-132 | If any call-rate column has a positive entry, `calls_sum_max` is positive. |
| Collapse.CollapseRowCallRate | py/data_utils.py:140-145 | A call-rate column with maximum 0 collapses to 0. Any other collapses to its weighted maximum over `calls_sum_max`. |
| Collapse.CollapseRowSenders | py/data_utils.py:134-135 | The `unique_senders` column collapses to its maximum. |
| Collapse.CollapseFeatures | py/data_utils.py:122-151 | An empty cluster collapses to an empty row. Otherwise there is one entry per feature, and every call-rate entry is in [0, 1]. Columns without calls give 0, and `unique_senders` gives the column max. |
| Collapse.CallRateShares | py/data_utils.py:128-146 | The call-rate entries are the column weighted maxima divided by their sum. |
| Collapse.CallRatesSumToOne | py/data_utils.py:128-146 | If any call-rate entry of the cluster is positive, the collapsed call-rate entries sum to 1. |
| Collapse.NoCallsNoRates | py/data_utils.py:141-145 | A cluster with no call-rate entry above 0 collapses to all-zero call rates. |
| Collapse.CollapseColumnRule | py/data_utils.py:133-145 | The `unique_senders` column collapses to a value that bounds every entry and is attained. A call-rate column with no positive entry collapses to 0. |
| Collapse.CollapseColumnMean | py/data_utils.py:146 | Any other column collapses to its weighted mean, which lies within any bounds of its entries. |
| Collapse.CollapseClusterShape | py/data_utils.py:155-169 | A label with no items collapses to an empty row. A label with items collapses to a full feature row whose call-rate entries lie in [0, 1]. |
| Collapse.CollapseClusters | py/data_utils.py:154-171 | There is one row per distinct label, in ascending label order. Each is the collapse of that label's feature rows and weights. |
| Collapse.CollapsedRowsAreFull | py/data_utils.py:154-171 | Every collapsed row has one entry per feature. |
| Clustering.ArgMin | py/clustering_model.py:69 | `np.argmin` returns a minimal index, and the first one on ties. |
| Clustering.PredictPoint | py/clustering_model.py:66-71 | A point's label is -1 or the label of one of the core samples. |
| Clustering.DensityLabels | py/clustering_model.py:62-72 | One label per point, each the single-point rule applied to that point. |
| Clustering.PredictPointOutlier | py/clustering_model.py:66-71 | A point is an outlier exactly when every core component is at distance ≥ eps. |
| Clustering.PredictPointNearest | py/clustering_model.py:66-71 | A labelled point gets the label of the first core component attaining the minimum distance, which is < eps. |
| Clustering.DbscanPredict | py/clustering_model.py:62-72 | One label per point, each the outlier rule applied to that point. |
| Clustering.GetNonOutliers | py/clustering_model.py:75-78 | The features and the weights are each filtered to the positions not labelled -1, in order. |
| Clustering.NonOutliersKept | py/clustering_model.py:75-78 | Both outputs have one entry per non-outlier. The non-outlier at position i lands at its rank among non-outliers, with its own feature and weight. |
| Clustering.Merged | py/clustering_model.py:81-90 | The merged labels have the length of the outlier labels, and every -1 stays at its position. |
| Clustering.MergedConsumesInOrder | py/clustering_model.py:84-89 | The j-th non-outlier position receives the j-th partition label. |
| Clustering.FilterMerged | py/clustering_model.py:81-90 | Dropping the -1 positions from the merged labels gives back the partition labels. |
| Clustering.MergedNoOutliers | py/clustering_model.py:81-90 | With no -1 entries, the merged labels equal the partition labels. |
| Clustering.MergedAllOutliers | py/clustering_model.py:81-90 | With only -1 entries, the merged labels are the outlier labels, and no partition label is used. |
| Clustering.MergedRange | py/clustering_model.py:41-50 | With partition labels in [0, k), every merged label is -1 or in [0, k), and it is -1 exactly where the outlier label is -1. |
| Clustering.MergeLabels | py/clustering_model.py:81-90 | The append loop computes the merged labels. |
| Clustering.WeightsOrOnes | py/clustering_model.py:11 | Absent weights become one 1 per feature row. Given weights are used as they are. |
| Clustering.PredictFitted | py/clustering_model.py:12-24 | With both models fitted, the labels are the density labels with the non-outliers' features and weights passed to the partitioner and its labels merged back in order. A result with no non-outlier is a too-few-points error. |
| Clustering.ClusteringModel.Predict | py/clustering_model.py:10-24 | Predicting without a fitted density model fails, and so does predicting without a partitioner. On success there is one label per point. A label is -1 exactly where the outlier rule says so, and otherwise lies in the partitioner's cluster range. The result is the density labels, filtered to the non-outliers, passed to the partitioner and merged back. It fails only for no points, a missing model, a shape mismatch, or no non-outlier. |
| Clustering.FittersExist | py/clustering_model.py:29-48 | The promises assumed of the density and partition fits can be met: a fit with no core samples that marks every point an outlier, and a fit that puts every point in cluster 0. The partition promise covers only configurations with at least one cluster, which is all that `fit` asks for once `num_clusters >= 2`. |
| Clustering.ClusteringModel.Fit | py/clustering_model.py:26-50 | Invalid `eps` or `min_samples` fails and leaves the density model unset. On success the density model is the one fitted on all points, and the partitioner is fitted on the non-outliers' features and weights with `num_clusters - 1` clusters. The training labels are the density labels with the partition labels merged back. There is one per point, each -1 or in [0, num_clusters - 2]. It fails only for invalid parameters, no points, a weight-count mismatch, or fewer non-outliers than partition clusters. A failure before the density stage leaves the density model unset and the partitioner as it was. A failure after it keeps the new density model and leaves the partitioner unset. |
| Visuals.ToFeatureName | py/visuals.py:10-11 | A name without the `calls_to_` prefix is left unchanged. |
| Visuals.ToFeatureNameOfMethod | py/visuals.py:10-11 | `calls_to_X` becomes `X()` for every non-empty single-line X. |
| Visuals.ToFeatureNameDistinct | py/visuals.py:10-11 | Distinct method names give distinct display names. |
| Visuals.ToFeatureNameFinalLineBreak | py/visuals.py:11 | For every non-empty one-line method name k, `calls_to_k` followed by a line break becomes `k()` followed by the line break, because `$` also matches before a final line break. |
| Visuals.ToFeatureNameBarePrefix | py/visuals.py:11 | The bare prefix is left unchanged, because `.+` needs a character. |
| Visuals.Permuted | py/visuals.py:102-106 | Position i of the reordered list holds `items[ordering[i]]`. |
| Visuals.Reorder | py/visuals.py:99-106 | Without an ordering the items come back unchanged. With one, the loop produces the permuted list. |
| Visuals.ReorderRows | py/visuals.py:99-106 | Without a row ordering the rows come back unchanged. Otherwise row i is row `row_ordering[i]`, itself permuted by a non-empty column ordering. |
| Visuals.PermutedIdentity | py/visuals.py:102-106 | Reordering by the identity leaves the items unchanged. |
| Visuals.PermutedCompose | py/visuals.py:102-106 | Reordering twice is reordering once by the composed ordering. |
| Visuals.PermutedInverse | py/visuals.py:102-106 | Reordering by an ordering and then by its inverse gives back the items. |
| Visuals.SendersTotalZero | py/visuals.py:88-93 | A cluster's sender sum is 0 exactly when none of its members has a sender besides its caller. |
| Visuals.CountSuffixParses | py/visuals.py:95 | The appended ` (n)` holds the decimal digits of n, which read back as n. |
| Visuals.MarkedName | py/visuals.py:88-95 | A decorated name ends with the count suffix. For a base name that does not itself start with the marker, it starts with the full marker `😊 ` exactly when marked. |
| Visuals.LabelNameParts | py/visuals.py:88-95 | A cluster's name ends with ` (n)` for its member count n. It starts with the full marker `😊 ` exactly when all its members have 0 unique senders. |
| Visuals.NameOneLabel | py/visuals.py:82-96 | The loop body computes the name of one label. |
| Visuals.CreateLabelNames | py/visuals.py:78-97 | There is one name per distinct label, in ascending label order, each the name of that label's cluster. |

## Left out

- The density and partition fits (`DBSCAN.fit_predict`, `KMeans.fit`, `kmeans_model.predict`) are library code. `Fit` takes them as function parameters. `Predict` uses a fitted partitioner's `assign` function. Each promises one label per point, with partition labels in [0, clusters) for at least one cluster (`DensityFitter`, `PartitionFitter`).
- `save_to_file` and `load_from_file` are pickle file I/O.
- `load_cluster_data` is file reading and JSON parsing. The model starts from the parsed record.
- `attenuate_values` and the `brighten` exponent need the normal density and fractional powers. `collapse_features` is modelled with `attenuate = 0` and `brighten = 0` only.
- The plotting functions of `py/visuals.py` and the command-line scripts (`fit.py`, `predict.py`, `inertia.py`) are presentation and glue.
- JavaScript platform code is left out. This covers the readline and file streams, `chrono` date parsing, argument parsing, the progress line on stdout and the JSON output. The `since` and `until` bounds are parameters.
- ABI selector encoding and parameter decoding (`AbiEncoder`, `loadMergedAbiFiles`, `cleanArgs`) are left out. The decoder is a selector table plus an opaque decoding function, and a decoding failure yields the empty argument object. The decoding function is assumed to return a nested `data` payload shorter than the argument text it was decoded from (`Shrinks`). ABI decoding guarantees this, because the payload's bytes are part of that text. The assumption is what makes the `executeTransaction` recursion finite.
- `hashOrder` and the signatures list are left out, because neither feeds the counters. A missing right order, which makes the hashing throw, is modelled as an error.
- CallData.CallerTable.HandleLine: applies the corrected window of the Findings table. The source accepts lines stamped after `until`, which `AsWrittenAcceptsLateCalls` exhibits.
- CallData.CallerTable.HandleLine: a throw inside the source's line handler aborts the run. The model instead returns the error with the sender already counted, which is the state at the throw.
- `CLASS_NAMES` lives in a module that is not part of this model. It is a sequence parameter.
- The non-numeric form of `split_by_labels`, which is keyed by class name, is not modelled as a map. `ClassNamesDistinct` and `RoundNamesDistinct` show that the naming is injective, so it has the same buckets.
- Visuals.Reorder: requires the ordering to be a full permutation-length index list. A shorter ordering would leave `None` entries in the source's preallocated list.
- Visuals.ReorderRows: requires a column ordering that covers each row exactly, as the heat map passes it.
- Floating point is modelled as exact `real` arithmetic. The model has no NaN or infinity, and sums do not depend on evaluation order.
- Clustering.ClusteringModel.Predict: a point whose dimension differs from the core components', or an empty component set, is reported as a shape error instead of a numpy broadcasting error.
- Clustering.ClusteringModel.Predict: when every point is an outlier, the source passes an empty array to the partitioner, which raises. The model reports that case as a too-few-points error.
- Clustering.ClusteringModel.Fit: an invalid `eps`, `min_samples` or cluster count, and too few inliers, are reported as errors instead of library exceptions. A stage that fails leaves its model unset.
- The smiley marker is the single code point U+1F60A followed by a space. No encoding is modelled.

## Findings

| source | as written | input that shows it | evidently intended | confidence | as-written member | corrected member |
|---|---|---|---|---|---|---|
| src/parse-call-data.js:50 | `rawCall > UNTIL` compares the whole record object with a number, which is always false, so no line is rejected for being late | a line with timestamp 10 and window [0, 5] is accepted | `rawCall.timestamp > UNTIL`, rejecting lines after the window | not executed | CallData.AsWrittenAcceptsLateCalls | CallData.InWindowBounds |
