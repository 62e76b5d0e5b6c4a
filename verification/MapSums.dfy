/** Sums over the values of a finite map. */
module MapSums {
  /** The value stored under `k`, or zero: how a storage map with a zero default is read. */
  function At<K>(m: map<K, nat>, k: K): nat {
    if k in m then m[k] else 0
  }

  ghost function Sum<K>(m: map<K, nat>): nat
    decreases |m|
  {
    if m == map[] then 0
    else
      var k :| k in m;
      assert |m - {k}| < |m| by { Smaller(m, k); }
      m[k] + Sum(m - {k})
  }

  lemma Smaller<K>(m: map<K, nat>, k: K)
    requires k in m
    ensures |m - {k}| == |m| - 1
  {
    assert (m - {k}).Keys == m.Keys - {k};
    assert |(m - {k}).Keys| == |m - {k}| && |m.Keys| == |m|;
  }

  /** The sum does not depend on which entry is taken out first. */
  lemma {:induction false} SumWithout<K>(m: map<K, nat>, k: K)
    requires k in m
    ensures Sum(m) == m[k] + Sum(m - {k})
    decreases |m|
  {
    var j :| j in m && Sum(m) == m[j] + Sum(m - {j});
    if j != k {
      Smaller(m, j);
      Smaller(m, k);
      SumWithout(m - {j}, k);
      SumWithout(m - {k}, j);
      assert m - {j} - {k} == m - {k} - {j};
    }
  }

  lemma SumUpdate<K>(m: map<K, nat>, k: K, v: nat)
    ensures Sum(m[k := v]) == Sum(m) - At(m, k) + v
  {
    SumWithout(m[k := v], k);
    if k in m {
      SumWithout(m, k);
      assert m[k := v] - {k} == m - {k};
    } else {
      assert m[k := v] - {k} == m;
    }
  }

  /** Two distinct entries together never exceed the sum. */
  lemma SumOfTwo<K>(m: map<K, nat>, j: K, k: K)
    requires j != k
    ensures At(m, j) + At(m, k) <= Sum(m)
  {
    if j in m { SumWithout(m, j); }
    if k in m { SumWithout(m, k); }
    if j in m && k in m { SumWithout(m - {j}, k); }
  }

  /** More keys and larger values give a larger sum. */
  lemma {:induction false} SumMonotone<K>(m: map<K, nat>, n: map<K, nat>)
    requires forall k :: k in m ==> k in n && m[k] <= n[k]
    ensures Sum(m) <= Sum(n)
    decreases |m|
  {
    if m != map[] {
      var k :| k in m;
      Smaller(m, k);
      SumWithout(m, k);
      SumWithout(n, k);
      SumMonotone(m - {k}, n - {k});
    }
  }

  lemma {:induction false} PositiveEntry<K>(m: map<K, nat>)
    requires Sum(m) > 0
    ensures exists k :: k in m && m[k] > 0
    decreases |m|
  {
    var k :| k in m;
    SumWithout(m, k);
    if m[k] == 0 {
      Smaller(m, k);
      PositiveEntry(m - {k});
      var j :| j in m - {k} && (m - {k})[j] > 0;
      assert j in m && m[j] > 0;
    }
  }

  /** A sum larger than one entry has another positive entry. */
  lemma PositiveElsewhere<K>(m: map<K, nat>, k: K)
    requires Sum(m) > At(m, k)
    ensures exists j :: j in m && j != k && m[j] > 0
  {
    if k in m {
      SumWithout(m, k);
    } else {
      assert m - {k} == m;
    }
    PositiveEntry(m - {k});
    var j :| j in m - {k} && (m - {k})[j] > 0;
    assert j in m && j != k && m[j] > 0;
  }
}
