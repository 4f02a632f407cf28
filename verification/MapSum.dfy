/** Sums over the entries of a map, where an absent key counts as zero. */
module MapSum {

  function Get<K>(m: map<K, int>, k: K): int {
    if k in m then m[k] else 0
  }

  ghost function Sum<K>(m: map<K, int>): int {
    if m == map[] then 0
    else
      var k :| k in m;
      m[k] + Sum(m - {k})
  }

  /** The choice of the first key does not matter. */
  lemma {:induction false} SumRemove<K>(m: map<K, int>, k: K)
    requires k in m
    ensures Sum(m) == m[k] + Sum(m - {k})
    decreases |m|
  {
    var c :| c in m && Sum(m) == m[c] + Sum(m - {c});
    if c != k {
      SumRemove(m - {c}, k);
      SumRemove(m - {k}, c);
      assert m - {c} - {k} == m - {k} - {c};
    }
  }

  lemma SumUpdate<K>(m: map<K, int>, k: K, v: int)
    ensures Sum(m[k := v]) == Sum(m) - Get(m, k) + v
  {
    SumRemove(m[k := v], k);
    assert m[k := v] - {k} == m - {k};
    if k in m {
      SumRemove(m, k);
    } else {
      assert m - {k} == m;
    }
  }

  lemma SumDelete<K>(m: map<K, int>, k: K)
    ensures Sum(m - {k}) == Sum(m) - Get(m, k)
  {
    if k in m {
      SumRemove(m, k);
    } else {
      assert m - {k} == m;
    }
  }

  ghost predicate NonNegative<K>(m: map<K, int>) {
    forall k :: k in m ==> m[k] >= 0
  }

  lemma {:induction false} SumBoundsEntries<K>(m: map<K, int>, k: K)
    requires NonNegative(m)
    ensures 0 <= Get(m, k) <= Sum(m)
    decreases |m|
  {
    if m != map[] {
      var c :| c in m;
      SumRemove(m, c);
      SumBoundsEntries(m - {c}, k);
    }
  }
}
