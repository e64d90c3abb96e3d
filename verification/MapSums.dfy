/** Sums over the values of a finite map: total issuance, the sum of claims, the total under custody. */
module MapSums {

  ghost function Pick<K, V>(m: map<K, V>): (k: K)
    requires m != map[]
    ensures k in m
  {
    var k :| k in m;
    k
  }

  /** The sum of f over all values of m; the order in which keys are picked does not matter (SumRemove). */
  ghost function Sum<K, V>(m: map<K, V>, f: V -> int): int
    decreases m.Keys
  {
    if m == map[] then 0
    else f(m[Pick(m)]) + Sum(m - {Pick(m)}, f)
  }

  /** What k contributes to the sum, zero for an absent entry. */
  function At<K, V>(m: map<K, V>, f: V -> int, k: K): int {
    if k in m then f(m[k]) else 0
  }

  lemma {:induction false} SumRemove<K, V>(m: map<K, V>, f: V -> int, k: K)
    requires k in m
    ensures Sum(m, f) == f(m[k]) + Sum(m - {k}, f)
    decreases m.Keys
  {
    var j := Pick(m);
    if j != k {
      SumRemove(m - {j}, f, k);
      SumRemove(m - {k}, f, j);
      assert m - {j} - {k} == m - {k} - {j};
    }
  }

  lemma {:induction false} SumUpdate<K, V>(m: map<K, V>, f: V -> int, k: K, v: V)
    ensures Sum(m[k := v], f) == Sum(m, f) - At(m, f, k) + f(v)
  {
    SumRemove(m[k := v], f, k);
    if k in m {
      SumRemove(m, f, k);
      assert m[k := v] - {k} == m - {k};
    } else {
      assert m[k := v] - {k} == m;
    }
  }

  lemma {:induction false} SumDrop<K, V>(m: map<K, V>, f: V -> int, k: K)
    ensures Sum(m - {k}, f) == Sum(m, f) - At(m, f, k)
  {
    if k in m {
      SumRemove(m, f, k);
    } else {
      assert m - {k} == m;
    }
  }

  lemma {:induction false} SumLowerBound<K, V>(m: map<K, V>, f: V -> int, k: K)
    requires forall j :: j in m ==> 0 <= f(m[j])
    ensures At(m, f, k) <= Sum(m, f) && 0 <= Sum(m, f)
    decreases m.Keys
  {
    if m != map[] {
      var j := Pick(m);
      SumLowerBound(m - {j}, f, k);
    }
  }
}
