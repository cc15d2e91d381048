/**
 * Display helpers of the heat map (py/visuals.py): feature names for the
 * rows, names with member counts for the clusters, and reordering of rows
 * and columns by a dendrogram's leaf order.
 */
module Visuals {
  import opened Util
  import opened DataUtils

  // ---------------------------------------------------------------------
  // Feature names
  // ---------------------------------------------------------------------

  /**
   * `re.sub(r'^calls_to_(.+)$', r'\1()', feature)`: a call-rate name
   * becomes the method name with "()" appended. `.` does not match a line
   * break, and `$` also matches just before a final line break, which then
   * stays after the parentheses; any other name is left as it is.
   */
  function ToFeatureName(feature: string): (r: string)
    ensures !IsCallRateName(feature) ==> r == feature
  {
    if !IsCallRateName(feature) then feature
    else
      var rest := feature[|CallPrefix|..];
      if |rest| > 0 && '\n' !in rest then rest + "()"
      else if |rest| > 1 && rest[|rest| - 1] == '\n' && '\n' !in rest[..|rest| - 1] then
        rest[..|rest| - 1] + "()\n"
      else feature
  }

  /** A one-line method name k is shown as "k()". */
  lemma ToFeatureNameOfMethod(k: string)
    requires |k| > 0 && '\n' !in k
    ensures ToFeatureName(CallPrefix + k) == k + "()"
  {
    CallRateName(k);
  }

  /** Different one-line method names are shown differently. */
  lemma ToFeatureNameDistinct(k1: string, k2: string)
    requires |k1| > 0 && '\n' !in k1 && |k2| > 0 && '\n' !in k2
    requires k1 != k2
    ensures ToFeatureName(CallPrefix + k1) != ToFeatureName(CallPrefix + k2)
  {
    ToFeatureNameOfMethod(k1);
    ToFeatureNameOfMethod(k2);
    assert (k1 + "()")[..|k1|] == k1;
    assert (k2 + "()")[..|k2|] == k2;
  }

  /** The regular expression's `$` matches before a final line break, which is kept. */
  lemma ToFeatureNameFinalLineBreak(k: string)
    requires |k| > 0 && '\n' !in k
    ensures ToFeatureName(CallPrefix + k + "\n") == k + "()\n"
  {
    CallRateName(k + "\n");
    assert CallPrefix + k + "\n" == CallPrefix + (k + "\n");
    assert (k + "\n")[..|k|] == k;
  }

  /** With nothing after the prefix, `.+` cannot match and the name stays. */
  lemma ToFeatureNameBarePrefix()
    ensures ToFeatureName(CallPrefix) == CallPrefix
  {
  }

  // ---------------------------------------------------------------------
  // Reordering
  // ---------------------------------------------------------------------

  /** An ordering of n items: one in-range index per position. */
  predicate IsOrdering(ordering: seq<nat>, n: nat)
  {
    |ordering| == n && forall i :: 0 <= i < n ==> ordering[i] < n
  }

  /** Position i holds the item at `ordering[i]`. */
  function Permuted<T>(items: seq<T>, ordering: seq<nat>): (r: seq<T>)
    requires forall i :: 0 <= i < |ordering| ==> ordering[i] < |items|
    ensures |r| == |ordering|
    ensures forall i :: 0 <= i < |ordering| ==> r[i] == items[ordering[i]]
  {
    seq(|ordering|, i requires 0 <= i < |ordering| => items[ordering[i]])
  }

  /** `reorder(items, ordering)` on one level: fills the result position by position. */
  method Reorder<T>(items: seq<T>, ordering: Option<seq<nat>>) returns (r: seq<T>)
    requires ordering.Some? ==> IsOrdering(ordering.value, |items|)
    ensures ordering.None? ==> r == items
    ensures ordering.Some? ==> r == Permuted(items, ordering.value)
  {
    if ordering.None? {
      return items;
    }
    var order := ordering.value;
    r := [];
    for i := 0 to |order|
      invariant r == Permuted(items, order[..i])
    {
      r := r + [items[order[i]]];
    }
  }

  /**
   * `reorder(items, row_ordering, col_ordering)` on a table: the rows in
   * row order, each row itself reordered when a non-empty column ordering
   * is given.
   */
  method ReorderRows<T>(rows: seq<seq<T>>, rowOrdering: Option<seq<nat>>, colOrdering: Option<seq<nat>>)
    returns (r: seq<seq<T>>)
    requires rowOrdering.Some? ==> IsOrdering(rowOrdering.value, |rows|)
    requires rowOrdering.Some? && colOrdering.Some? && |colOrdering.value| > 0 ==>
      && IsOrdering(colOrdering.value, |colOrdering.value|)
      && forall k :: 0 <= k < |rows| ==> |rows[k]| == |colOrdering.value|
    ensures rowOrdering.None? ==> r == rows
    ensures rowOrdering.Some? ==> |r| == |rows|
    ensures rowOrdering.Some? ==> forall i :: 0 <= i < |r| ==>
      r[i] == if colOrdering.Some? && |colOrdering.value| > 0
              then Permuted(rows[rowOrdering.value[i]], colOrdering.value)
              else rows[rowOrdering.value[i]]
  {
    if rowOrdering.None? {
      return rows;
    }
    var order := rowOrdering.value;
    r := [];
    for i := 0 to |order|
      invariant |r| == i
      invariant forall j :: 0 <= j < i ==>
        r[j] == if colOrdering.Some? && |colOrdering.value| > 0
                then Permuted(rows[order[j]], colOrdering.value)
                else rows[order[j]]
    {
      var y := rows[order[i]];
      if colOrdering.Some? && |colOrdering.value| > 0 {
        y := Reorder(y, colOrdering);
      }
      r := r + [y];
    }
  }

  /** The identity ordering leaves items as they are. */
  lemma PermutedIdentity<T>(items: seq<T>, ordering: seq<nat>)
    requires |ordering| == |items|
    requires forall i :: 0 <= i < |ordering| ==> ordering[i] == i
    ensures Permuted(items, ordering) == items
  {
  }

  /** Reordering twice is reordering once by the composed ordering. */
  lemma PermutedCompose<T>(items: seq<T>, first: seq<nat>, second: seq<nat>)
    requires forall i :: 0 <= i < |first| ==> first[i] < |items|
    requires forall i :: 0 <= i < |second| ==> second[i] < |first|
    ensures Permuted(Permuted(items, first), second) == Permuted(items, Permuted(first, second))
  {
  }

  /** Reordering by an ordering and then by its inverse gives the items back. */
  lemma PermutedInverse<T>(items: seq<T>, ordering: seq<nat>, inverse: seq<nat>)
    requires IsOrdering(ordering, |items|) && IsOrdering(inverse, |items|)
    requires forall j :: 0 <= j < |items| ==> ordering[inverse[j]] == j
    ensures Permuted(Permuted(items, ordering), inverse) == items
  {
    PermutedCompose(items, ordering, inverse);
    PermutedIdentity(items, Permuted(ordering, inverse));
  }

  // ---------------------------------------------------------------------
  // Cluster names
  // ---------------------------------------------------------------------

  /** The prefix that marks a cluster none of whose callers has other senders. */
  const Smiley := "\U{1F60A} "

  /** `sum(d['unique_senders'] for d in items)`. */
  function SendersTotal(items: seq<ParsedItem>): nat
  {
    if |items| == 0 then 0 else SendersTotal(items[..|items| - 1]) + items[|items| - 1].uniqueSenders
  }

  /** The sum is zero exactly when no item has a sender besides its caller. */
  lemma {:induction false} SendersTotalZero(items: seq<ParsedItem>)
    ensures SendersTotal(items) == 0 <==> forall i :: 0 <= i < |items| ==> items[i].uniqueSenders == 0
  {
    if |items| > 0 {
      var n := |items| - 1;
      SendersTotalZero(items[..n]);
      assert forall i :: 0 <= i < n ==> items[..n][i] == items[i];
    }
  }

  /** `' (%d)' % n`: the member count appended to a cluster name. */
  function CountSuffix(n: nat): (r: string)
    ensures |r| > 0 && r[0] == ' '
  {
    " (" + NatToString(n) + ")"
  }

  /** The count can be read back from the digits inside the parentheses. */
  lemma CountSuffixParses(n: nat)
    ensures var r := CountSuffix(n);
      && r[..2] == " (" && r[|r| - 1] == ')'
      && (forall i :: 2 <= i < |r| - 1 ==> IsDigit(r[i]))
      && ParseNat(r[2..|r| - 1]) == n
  {
    var r := CountSuffix(n);
    assert r[2..|r| - 1] == NatToString(n);
    ParseNatToString(n);
  }

  /** The name of the cluster with label l: its class name, the marker, and its size. */
  function LabelName(items: seq<ParsedItem>, labels: seq<int>, classNames: seq<string>, l: int): string
    requires |classNames| > 0
  {
    var members := Members(items, labels, l);
    var name := LabelToClassName(l, classNames);
    Decorated(name, SendersTotal(members) == 0, |members|)
  }

  /** `'😊 %s'` when marked, then `'%s (%d)'` with the count. */
  function Decorated(name: string, marked: bool, count: nat): string
  {
    (if marked then Smiley + name else name) + CountSuffix(count)
  }

  /** Class names that cannot be mistaken for the marker. */
  predicate Unmarked(classNames: seq<string>)
  {
    forall i :: 0 <= i < |classNames| ==> |classNames[i]| == 0 || classNames[i][0] != Smiley[0]
  }

  /**
   * A cluster name ends with its member count in parentheses, and starts
   * with the marker exactly when none of its members has a sender besides
   * its caller.
   */
  lemma LabelNameParts(items: seq<ParsedItem>, labels: seq<int>, classNames: seq<string>, l: int)
    requires |classNames| > 0 && Unmarked(classNames)
    ensures var name := LabelName(items, labels, classNames, l);
      var members := Members(items, labels, l);
      var suffix := CountSuffix(|members|);
      && name[|name| - |suffix|..] == suffix
      && (name[0] == Smiley[0] <==> forall i :: 0 <= i < |members| ==> members[i].uniqueSenders == 0)
      && (|name| >= |Smiley| && name[..|Smiley|] == Smiley <==>
            forall i :: 0 <= i < |members| ==> members[i].uniqueSenders == 0)
  {
    var members := Members(items, labels, l);
    var base := LabelToClassName(l, classNames);
    var suffix := CountSuffix(|members|);
    SendersTotalZero(members);
    ClassNameUnmarked(l, classNames);
    MarkedName(base, SendersTotal(members) == 0, |members|);
  }

  /** A class name never starts with the marker when the class names do not. */
  lemma ClassNameUnmarked(l: int, classNames: seq<string>)
    requires |classNames| > 0 && Unmarked(classNames)
    ensures var base := LabelToClassName(l, classNames);
      |base| == 0 || base[0] != Smiley[0]
  {
    if l >= |classNames| {
      var cn := classNames[l % |classNames|];
      var base := cn + "_" + NatToString(l / |classNames|);
      assert |cn| == 0 ==> base[0] == '_';
      assert |cn| > 0 ==> base[0] == cn[0];
    }
  }

  /** The marker, when added, is the only way the name can start with it. */
  lemma MarkedName(base: string, marked: bool, count: nat)
    requires |base| == 0 || base[0] != Smiley[0]
    ensures var name, suffix := Decorated(base, marked, count), CountSuffix(count);
      && name[|name| - |suffix|..] == suffix
      && (name[0] == Smiley[0] <==> marked)
      && (|name| >= |Smiley| && name[..|Smiley|] == Smiley <==> marked)
  {
    var suffix := CountSuffix(count);
    var name := (if marked then Smiley + base else base) + suffix;
    assert name[|name| - |suffix|..] == suffix;
    assert !marked && |base| == 0 ==> name[0] == ' ';
    assert !marked && |base| > 0 ==> name[0] == base[0];
    assert marked ==> name[..|Smiley|] == Smiley;
  }

  /** `[f(x) for x in xs]`. */
  function Mapped<A, B>(f: A --> B, xs: seq<A>): (r: seq<B>)
    requires forall i :: 0 <= i < |xs| ==> f.requires(xs[i])
    ensures |r| == |xs|
    ensures forall i :: 0 <= i < |xs| ==> r[i] == f(xs[i])
  {
    if |xs| == 0 then []
    else
      var n := |xs| - 1;
      assert forall i :: 0 <= i < n ==> xs[..n][i] == xs[i];
      Mapped(f, xs[..n]) + [f(xs[n])]
  }

  /** The naming rule of `create_label_names`, as a function of the label. */
  function NameOf(items: seq<ParsedItem>, labels: seq<int>, classNames: seq<string>): int --> string
  {
    l requires |classNames| > 0 => LabelName(items, labels, classNames, l)
  }

  /**
   * `create_label_names`: one name per distinct label, in ascending label
   * order.
   */
  method CreateLabelNames(items: seq<ParsedItem>, labels: seq<int>, classNames: seq<string>)
    returns (names: seq<string>)
    requires |classNames| > 0
    ensures names == Mapped(NameOf(items, labels, classNames), SortedLabels(labels))
  {
    var order := SortedLabels(labels);
    var f := NameOf(items, labels, classNames);
    names := [];
    for c := 0 to |order|
      invariant names == Mapped(f, order[..c])
    {
      var name := NameOneLabel(items, labels, classNames, order[c]);
      assert order[..c + 1][..c] == order[..c];
      names := names + [name];
    }
    assert order[..|order|] == order;
  }

  /** The body of the loop in `create_label_names`, for one label. */
  method NameOneLabel(items: seq<ParsedItem>, labels: seq<int>, classNames: seq<string>, l: int)
    returns (name: string)
    requires |classNames| > 0
    ensures name == NameOf(items, labels, classNames)(l)
  {
    var members := Members(items, labels, l);
    name := LabelToClassName(l, classNames);
    if SendersTotal(members) == 0 {
      name := Smiley + name;
    }
    name := name + CountSuffix(|members|);
  }

  /** One name per distinct label, the c-th being the name of the c-th smallest label. */
  lemma CreatedNames(items: seq<ParsedItem>, labels: seq<int>, classNames: seq<string>)
    requires |classNames| > 0
    ensures var names := Mapped(NameOf(items, labels, classNames), SortedLabels(labels));
      && |names| == |SortedLabels(labels)|
      && forall c :: 0 <= c < |names| ==>
           names[c] == LabelName(items, labels, classNames, SortedLabels(labels)[c])
  {
  }
}
