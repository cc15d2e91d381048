/**
 * Sums and maxima over the values of a dictionary, as Python's
 * `sum(d.values())` and `max(d.values())` compute them. Map keys have no
 * order in Dafny, so these are specification functions (ghost); the lemmas
 * show that the key picked first does not matter.
 */
module Tally {

  /** `sum(m.values())` for a dictionary of counts. */
  ghost function Total<K>(m: map<K, nat>): nat
    decreases |m|
  {
    if |m| == 0 then 0 else var k :| k in m; m[k] + Total(m - {k})
  }

  /** Any key can be taken out first. */
  lemma {:induction false} TotalRemove<K>(m: map<K, nat>, k: K)
    requires k in m
    ensures Total(m) == m[k] + Total(m - {k})
    decreases |m|
  {
    var j :| j in m && Total(m) == m[j] + Total(m - {j});
    if j != k {
      RemoveBoth(m, j, k);
      TotalRemove(m - {j}, k);
      TotalRemove(m - {k}, j);
    }
  }

  /** Taking two different keys out of a map, in either order. */
  lemma RemoveBoth<K, V>(m: map<K, V>, j: K, k: K)
    requires j in m && k in m && j != k
    ensures |m - {j}| == |m| - 1 && |m - {k}| == |m| - 1
    ensures k in m - {j} && (m - {j})[k] == m[k]
    ensures j in m - {k} && (m - {k})[j] == m[j]
    ensures m - {j} - {k} == m - {k} - {j}
  {
  }

  /** Every count is bounded by the total. */
  lemma TotalBounds<K>(m: map<K, nat>, k: K)
    requires k in m
    ensures m[k] <= Total(m)
  {
    TotalRemove(m, k);
  }

  /** The total is zero exactly when every count is zero. */
  lemma {:induction false} TotalZero<K>(m: map<K, nat>)
    ensures Total(m) == 0 <==> forall k :: k in m ==> m[k] == 0
    decreases |m|
  {
    if |m| > 0 {
      var k :| k in m;
      TotalRemove(m, k);
      assert |m - {k}| == |m| - 1;
      TotalZero(m - {k});
      if Total(m) == 0 {
        forall j | j in m ensures m[j] == 0 {
          if j != k { assert j in m - {k}; }
        }
      }
    } else {
      assert forall k :: k !in m;
    }
  }

  /** `(m[k] || 0) + 1`: one more occurrence of k, creating its entry at 1 if absent. */
  function Bump<K>(m: map<K, nat>, k: K): (r: map<K, nat>)
    ensures r.Keys == m.Keys + {k}
    ensures r[k] == (if k in m then m[k] else 0) + 1
    ensures forall j :: j in m && j != k ==> r[j] == m[j]
  {
    m[k := (if k in m then m[k] else 0) + 1]
  }

  lemma BumpRemove<K>(m: map<K, nat>, k: K)
    ensures Bump(m, k) - {k} == m - {k}
  {
    assert Bump(m, k) == m[k := (if k in m then m[k] else 0) + 1];
  }

  /** One more occurrence adds one to the total. */
  lemma TotalBump<K>(m: map<K, nat>, k: K)
    ensures Total(Bump(m, k)) == Total(m) + 1
  {
    var m' := Bump(m, k);
    TotalRemove(m', k);
    BumpRemove(m, k);
    if k in m {
      TotalRemove(m, k);
    } else {
      assert m - {k} == m;
    }
  }

  /** `sum(m.values())` for a dictionary of reals. */
  ghost function SumReal<K>(m: map<K, real>): real
    decreases |m|
  {
    if |m| == 0 then 0.0 else var k :| k in m; m[k] + SumReal(m - {k})
  }

  lemma {:induction false} SumRealRemove<K>(m: map<K, real>, k: K)
    requires k in m
    ensures SumReal(m) == m[k] + SumReal(m - {k})
    decreases |m|
  {
    var j :| j in m && SumReal(m) == m[j] + SumReal(m - {j});
    if j != k {
      RemoveBoth(m, j, k);
      SumRealRemove(m - {j}, k);
      SumRealRemove(m - {k}, j);
    }
  }

  /** Each count divided by a common denominator. */
  function Scaled<K>(m: map<K, nat>, t: real): (r: map<K, real>)
    requires t != 0.0
    ensures r.Keys == m.Keys
  {
    map k | k in m :: m[k] as real / t
  }

  /** Dividing every count by t divides the total by t. */
  lemma {:induction false} SumScaled<K>(m: map<K, nat>, t: real)
    requires t != 0.0
    ensures SumReal(Scaled(m, t)) == Total(m) as real / t
    decreases |m|
  {
    if |m| == 0 {
      assert Scaled(m, t) == map[];
    } else {
      var k :| k in m;
      assert |m - {k}| == |m| - 1;
      SumScaled(m - {k}, t);
      SumScaledStep(m, t, k);
    }
  }

  lemma SumScaledStep<K>(m: map<K, nat>, t: real, k: K)
    requires t != 0.0 && k in m
    requires SumReal(Scaled(m - {k}, t)) == Total(m - {k}) as real / t
    ensures SumReal(Scaled(m, t)) == Total(m) as real / t
  {
    var sm := Scaled(m, t);
    var a, b := m[k] as real, Total(m - {k}) as real;
    SumRealRemove(sm, k);
    ScaledRemove(m, t, k);
    assert SumReal(sm) == a / t + b / t;
    DivideSum(a, b, t);
    TotalRemove(m, k);
    assert Total(m) as real == a + b;
  }

  lemma ScaledRemove<K>(m: map<K, nat>, t: real, k: K)
    requires t != 0.0
    ensures Scaled(m, t) - {k} == Scaled(m - {k}, t)
  {
  }

  lemma DivideSum(a: real, b: real, t: real)
    requires t != 0.0
    ensures (a + b) / t == a / t + b / t
  {
    var x, y := a / t, b / t;
    assert x * t == a && y * t == b;
    assert (x + y) * t == a + b;
  }

  /** `max(m.values())`: the largest count, which some key attains. */
  ghost function MaxCount<K>(m: map<K, nat>): (r: nat)
    requires |m| > 0
    ensures forall k :: k in m ==> m[k] <= r
    ensures exists k :: k in m && m[k] == r
    decreases |m|
  {
    var k :| k in m;
    if |m| == 1 then
      SingleKey(m, k);
      m[k]
    else
      assert |m - {k}| == |m| - 1;
      var rest := MaxCount(m - {k});
      MaxStep(m, k, rest);
      if m[k] >= rest then m[k] else rest
  }

  /** The entries other than k are bounded by, and attain, the maximum of the rest. */
  lemma MaxStep<K>(m: map<K, nat>, k: K, rest: nat)
    requires k in m
    requires forall j :: j in m - {k} ==> (m - {k})[j] <= rest
    requires exists j :: j in m - {k} && (m - {k})[j] == rest
    ensures forall j :: j in m ==> m[j] <= m[k] || m[j] <= rest
    ensures exists j :: j in m && m[j] == rest
  {
    forall j | j in m
      ensures m[j] <= m[k] || m[j] <= rest
    {
      if j != k {
        assert j in m - {k};
      }
    }
    var j :| j in m - {k} && (m - {k})[j] == rest;
    assert j in m && m[j] == rest;
  }

  /** A map with one entry has just the key it is known to hold. */
  lemma SingleKey<K, V>(m: map<K, V>, k: K)
    requires k in m && |m| == 1
    ensures m.Keys == {k}
  {
    var rest := m.Keys - {k};
    assert |rest| == 0;
    assert rest == {};
    assert m.Keys == rest + {k};
  }
}
