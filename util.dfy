/**
 * Shared building blocks: optional values and results for the error paths,
 * order-preserving selection by a mask (the comprehensions
 * `[x for (i, x) in enumerate(xs) if keep[i]]` that recur throughout the
 * Python side), and decimal rendering of natural numbers (`'%d' % n`).
 */
module Util {

  datatype Option<T> = None | Some(value: T)

  datatype Result<T, E> = Ok(value: T) | Err(error: E)

  // ---------------------------------------------------------------------
  // Order-preserving selection by a boolean mask
  // ---------------------------------------------------------------------

  /** Number of positions the mask keeps. */
  function Count(keep: seq<bool>): (n: nat)
    ensures n <= |keep|
  {
    if |keep| == 0 then 0
    else Count(keep[..|keep| - 1]) + (if keep[|keep| - 1] then 1 else 0)
  }

  /** Number of kept positions strictly before position i. */
  function Rank(keep: seq<bool>, i: nat): nat
    requires i <= |keep|
  {
    Count(keep[..i])
  }

  lemma {:induction false} CountPrefixMonotone(keep: seq<bool>, i: nat, j: nat)
    requires i <= j <= |keep|
    ensures Count(keep[..i]) <= Count(keep[..j])
    ensures Count(keep[..i]) + Count(keep[i..j]) == Count(keep[..j])
    decreases j
  {
    if i < j {
      CountPrefixMonotone(keep, i, j - 1);
      assert keep[..j][..j - 1] == keep[..j - 1];
      assert keep[i..j][..j - 1 - i] == keep[i..j - 1];
    } else {
      assert keep[i..j] == [];
    }
  }

  /** Passing one more position adds one to the rank exactly when it is kept. */
  lemma RankStep(keep: seq<bool>, t: nat)
    requires t < |keep|
    ensures Rank(keep, t + 1) == Rank(keep, t) + (if keep[t] then 1 else 0)
  {
    assert keep[..t + 1][..t] == keep[..t];
  }

  /** A prefix of the mask ranks its positions as the whole mask does. */
  lemma RankPrefix(keep: seq<bool>, j: nat, i: nat)
    requires i <= j <= |keep|
    ensures Rank(keep[..j], i) == Rank(keep, i)
  {
    assert keep[..j][..i] == keep[..i];
  }

  /**
   * The kept positions, in increasing order: the explicit index bookkeeping
   * that couples a filtered sequence back to the positions it came from.
   */
  function Positions(keep: seq<bool>): (p: seq<nat>)
    ensures |p| == Count(keep)
    ensures forall k :: 0 <= k < |p| ==> p[k] < |keep| && keep[p[k]]
    ensures forall k, l :: 0 <= k < l < |p| ==> p[k] < p[l]
  {
    if |keep| == 0 then []
    else
      var init := keep[..|keep| - 1];
      assert forall k :: 0 <= k < |init| ==> init[k] == keep[k];
      if keep[|keep| - 1] then Positions(init) + [|keep| - 1] else Positions(init)
  }

  /**
   * The k-th kept position has exactly k kept positions before it, and every
   * kept position is listed: positions and ranks are inverse to each other.
   */
  lemma {:induction false} PositionsRank(keep: seq<bool>)
    ensures forall k :: 0 <= k < Count(keep) ==> Rank(keep, Positions(keep)[k]) == k
    ensures forall i :: 0 <= i < |keep| && keep[i] ==>
      Rank(keep, i) < Count(keep) && Positions(keep)[Rank(keep, i)] == i
  {
    if |keep| > 0 {
      var n := |keep| - 1;
      var init := keep[..n];
      PositionsRank(init);
      var p0, p := Positions(init), Positions(keep);
      forall k | 0 <= k < Count(keep)
        ensures Rank(keep, p[k]) == k
      {
        if k < |p0| {
          RankPrefix(keep, n, p0[k]);
        } else {
          assert keep[..n] == init;
        }
      }
      forall i | 0 <= i < |keep| && keep[i]
        ensures Rank(keep, i) < Count(keep) && p[Rank(keep, i)] == i
      {
        if i < n {
          RankPrefix(keep, n, i);
          assert init[i];
        } else {
          assert keep[..n] == init;
        }
      }
    }
  }

  /** `[x for (i, x) in enumerate(xs) if keep[i]]`: the kept elements, in order. */
  function Filter<T>(xs: seq<T>, keep: seq<bool>): (r: seq<T>)
    requires |xs| == |keep|
    ensures |r| == Count(keep)
    ensures forall k :: 0 <= k < |r| ==> r[k] == xs[Positions(keep)[k]]
  {
    if |xs| == 0 then []
    else
      var n := |xs| - 1;
      Filter(xs[..n], keep[..n]) + (if keep[n] then [xs[n]] else [])
  }

  /** A mask that keeps everything counts every position. */
  lemma {:induction false} CountAll(keep: seq<bool>)
    requires forall i :: 0 <= i < |keep| ==> keep[i]
    ensures Count(keep) == |keep|
  {
    if |keep| > 0 {
      CountAll(keep[..|keep| - 1]);
    }
  }

  /** A mask that keeps everything leaves the sequence as it is. */
  lemma FilterAll<T>(xs: seq<T>, keep: seq<bool>)
    requires |xs| == |keep|
    requires forall i :: 0 <= i < |keep| ==> keep[i]
    ensures Filter(xs, keep) == xs
  {
    CountAll(keep);
    PositionsRank(keep);
    var r, p := Filter(xs, keep), Positions(keep);
    forall i | 0 <= i < |keep|
      ensures r[i] == xs[i]
    {
      CountAll(keep[..i]);
      assert Rank(keep, i) == i;
      assert p[i] == i;
    }
  }

  /** A mask that keeps nothing yields the empty sequence. */
  lemma {:induction false} FilterNone<T>(xs: seq<T>, keep: seq<bool>)
    requires |xs| == |keep|
    requires forall i :: 0 <= i < |keep| ==> !keep[i]
    ensures Count(keep) == 0 && Filter(xs, keep) == []
  {
    if |xs| > 0 {
      FilterNone(xs[..|xs| - 1], keep[..|xs| - 1]);
    }
  }

  /** Every element of the result sits at a kept position of the input. */
  lemma FilterFrom<T>(xs: seq<T>, keep: seq<bool>, k: nat)
    requires |xs| == |keep| && k < Count(keep)
    ensures exists i :: 0 <= i < |xs| && keep[i] && Filter(xs, keep)[k] == xs[i]
  {
    var p := Positions(keep);
    assert keep[p[k]] && Filter(xs, keep)[k] == xs[p[k]];
  }

  // ---------------------------------------------------------------------
  // Decimal rendering of naturals, as `'%d' % n` prints them
  // ---------------------------------------------------------------------

  predicate IsDigit(c: char) { '0' <= c <= '9' }

  function DigitChar(d: nat): (c: char)
    requires d < 10
    ensures IsDigit(c)
  {
    ('0' as int + d) as char
  }

  function DigitValue(c: char): (d: nat)
    requires IsDigit(c)
    ensures d < 10
  {
    c as int - '0' as int
  }

  /**
   * n split into its last decimal digit and the rest, by repeated
   * subtraction so that only linear arithmetic is involved.
   */
  function SplitLastDigit(n: nat): (r: (nat, nat))
    ensures n == 10 * r.0 + r.1 && r.1 < 10
  {
    if n < 10 then (0, n)
    else
      var (q, d) := SplitLastDigit(n - 10);
      (q + 1, d)
  }

  /** Decimal digits of n, most significant first, with no leading zero. */
  function NatToString(n: nat): (s: string)
    ensures |s| > 0
    ensures forall i :: 0 <= i < |s| ==> IsDigit(s[i])
    ensures n > 0 ==> s[0] != '0'
  {
    if n < 10 then [DigitChar(n)]
    else
      var (q, d) := SplitLastDigit(n);
      NatToString(q) + [DigitChar(d)]
  }

  /** The value of a string of decimal digits. */
  function ParseNat(s: string): nat
    requires forall i :: 0 <= i < |s| ==> IsDigit(s[i])
  {
    if |s| == 0 then 0 else ParseNat(s[..|s| - 1]) * 10 + DigitValue(s[|s| - 1])
  }

  /** Rendering then parsing gives the number back. */
  lemma {:induction false} ParseNatToString(n: nat)
    ensures ParseNat(NatToString(n)) == n
  {
    var s := NatToString(n);
    if n < 10 {
      assert s[..0] == [];
    } else {
      var (q, d) := SplitLastDigit(n);
      ParseNatToString(q);
      assert s[..|s| - 1] == NatToString(q);
    }
  }

  /** So distinct numbers are rendered differently. */
  lemma NatToStringInjective(a: nat, b: nat)
    requires NatToString(a) == NatToString(b)
    ensures a == b
  {
    ParseNatToString(a);
    ParseNatToString(b);
  }
}
