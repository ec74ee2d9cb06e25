/** Sums over the values of a finite map, taken in any order. */
module MapSum {

  import opened Basics

  ghost function Sum<K>(m: map<K, int>): int
    decreases |m|
  {
    if m == map[] then 0 else
    var k :| k in m;
    m[k] + Sum(m - {k})
  }

  /** Any key may be taken out first. */
  lemma {:induction false} SumRemove<K>(m: map<K, int>, k: K)
    requires k in m
    ensures Sum(m) == m[k] + Sum(m - {k})
    decreases |m|
  {
    var c :| c in m && Sum(m) == m[c] + Sum(m - {c});
    if c != k {
      SumRemove(m - {c}, k);
      SumRemove(m - {k}, c);
      assert m - {c} - {k} == m - {k} - {c};
    }
  }

  /** Writing one entry changes the sum by the difference. */
  lemma SumUpdate<K>(m: map<K, int>, k: K, v: int)
    ensures Sum(m[k := v]) == Sum(m) + v - (if k in m then m[k] else 0)
  {
    SumRemove(m[k := v], k);
    if k in m {
      SumRemove(m, k);
      assert m[k := v] - {k} == m - {k};
    } else {
      assert m[k := v] - {k} == m;
    }
  }

  /** Pointwise smaller values on fewer keys have the smaller sum. */
  lemma {:induction false} SumMonotone<K>(small: map<K, int>, big: map<K, int>)
    requires small.Keys <= big.Keys
    requires forall k | k in small :: small[k] <= big[k]
    requires forall k | k in big && k !in small :: 0 <= big[k]
    ensures Sum(small) <= Sum(big)
    decreases |big|
  {
    if big == map[] {
      assert small == map[];
    } else {
      var k :| k in big;
      SumRemove(big, k);
      if k in small {
        SumRemove(small, k);
      } else {
        assert small - {k} == small;
      }
      SumMonotone(small - {k}, big - {k});
    }
  }

  lemma SumNonNegative<K>(m: map<K, int>)
    requires forall k | k in m :: 0 <= m[k]
    ensures 0 <= Sum(m)
  {
    var empty: map<K, int> := map[];
    SumMonotone(empty, m);
  }

  /** Adding the values one at a time in 64-bit arithmetic gives the wrapped sum. */
  method WrappedTotal<K(==)>(m: map<K, int>) returns (total: int64)
    ensures total == Wrap64(Sum(m))
  {
    total := 0;
    var rest := m;
    ghost var done := 0;
    while rest.Keys != {}
      invariant done + Sum(rest) == Sum(m)
      invariant total == Wrap64(done)
      decreases rest.Keys
    {
      var k :| k in rest.Keys;
      var v := rest[k];
      SumRemove(rest, k);
      rest := rest - {k};
      WrapAdd(done, v);
      total := Wrap64(total + v);
      done := done + v;
    }
    assert rest == map[];
  }
}
